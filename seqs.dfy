/** Sequence helpers: a table's rows in primary-key order are a `seq`, a queryset `filter` is `Keep`. */
module Seqs {

  /** The elements of `s` that satisfy `p`, in their original order. */
  function Keep<T(!new)>(s: seq<T>, p: T -> bool): (r: seq<T>)
    ensures |r| <= |s|
    ensures forall x :: x in r <==> x in s && p(x)
    ensures multiset(r) <= multiset(s)
    decreases |s|
  {
    if s == [] then []
    else
      var rest := Keep(s[1..], p);
      assert s == [s[0]] + s[1..];
      if p(s[0]) then [s[0]] + rest else rest
  }

  /** No row occurs twice: what a unique constraint over all of a row's columns guarantees. */
  ghost predicate NoDuplicates<T>(s: seq<T>) {
    forall i, j :: 0 <= i < j < |s| ==> s[i] != s[j]
  }

  lemma {:induction false} KeepAppend<T(!new)>(a: seq<T>, b: seq<T>, p: T -> bool)
    ensures Keep(a + b, p) == Keep(a, p) + Keep(b, p)
    decreases |a|
  {
    if a == [] {
      assert a + b == b;
    } else {
      assert (a + b)[1..] == a[1..] + b;
      KeepAppend(a[1..], b, p);
    }
  }

  lemma {:induction false} KeepAll<T(!new)>(s: seq<T>, p: T -> bool)
    requires forall x :: x in s ==> p(x)
    ensures Keep(s, p) == s
    decreases |s|
  {
    if s != [] {
      KeepAll(s[1..], p);
    }
  }

  lemma {:induction false} KeepNone<T(!new)>(s: seq<T>, p: T -> bool)
    requires forall x :: x in s ==> !p(x)
    ensures Keep(s, p) == []
    decreases |s|
  {
    if s != [] {
      KeepNone(s[1..], p);
    }
  }

  /** Removing rows keeps a table free of duplicates. */
  lemma {:induction false} KeepNoDuplicates<T(!new)>(s: seq<T>, p: T -> bool)
    requires NoDuplicates(s)
    ensures NoDuplicates(Keep(s, p))
    decreases |s|
  {
    if s != [] {
      KeepNoDuplicates(s[1..], p);
      var rest := Keep(s[1..], p);
      assert s[0] !in s[1..] by {
        forall k | 0 <= k < |s[1..]| ensures s[1..][k] != s[0] {
          assert s[1..][k] == s[k + 1];
        }
      }
      assert s[0] !in rest;
    }
  }

  /** Appending a row that is not yet present keeps a table free of duplicates. */
  lemma AppendNoDuplicates<T>(s: seq<T>, x: T)
    requires NoDuplicates(s) && x !in s
    ensures NoDuplicates(s + [x])
  {
    forall i, j | 0 <= i < j < |s + [x]| ensures (s + [x])[i] != (s + [x])[j] {
      if j == |s| {
        assert (s + [x])[i] == s[i];
      } else {
        assert (s + [x])[i] == s[i] && (s + [x])[j] == s[j];
      }
    }
  }

  /** In a table without duplicates, the rows equal to `x` are `x` alone or nothing. */
  lemma {:induction false} KeepEqual<T(!new)>(s: seq<T>, x: T)
    requires NoDuplicates(s)
    ensures Keep(s, (y: T) => y == x) == if x in s then [x] else []
    decreases |s|
  {
    if s != [] {
      var p := (y: T) => y == x;
      KeepEqual(s[1..], x);
      assert s == [s[0]] + s[1..];
      if s[0] == x {
        assert x !in s[1..] by {
          forall k | 0 <= k < |s[1..]| ensures s[1..][k] != x {
            assert s[1..][k] == s[k + 1];
          }
        }
      }
    }
  }

  /** The length of the longest prefix of `s` in which no element repeats: the position of
      the first element that already occurred earlier, or `|s|` if there is none. */
  function DistinctPrefix<T(==)>(s: seq<T>): (k: nat)
    ensures k <= |s|
    decreases |s|
  {
    if s == [] then 0
    else
      var k := DistinctPrefix(s[..|s| - 1]);
      if k < |s| - 1 then k
      else if s[|s| - 1] in s[..|s| - 1] then |s| - 1
      else |s|
  }

  /** The prefix is duplicate-free, and the element that ends it (if any) repeats an earlier one. */
  lemma {:induction false} DistinctPrefixProperties<T>(s: seq<T>)
    ensures NoDuplicates(s[..DistinctPrefix(s)])
    ensures DistinctPrefix(s) < |s| ==> s[DistinctPrefix(s)] in s[..DistinctPrefix(s)]
    decreases |s|
  {
    if s != [] {
      var init := s[..|s| - 1];
      DistinctPrefixProperties(init);
      var k := DistinctPrefix(init);
      if k < |s| - 1 {
        assert s[..k] == init[..k];
        assert s[k] == init[k];
      } else {
        assert init[..k] == init;
        if s[|s| - 1] !in init {
          assert s[..|s|] == init + [s[|s| - 1]];
          AppendNoDuplicates(init, s[|s| - 1]);
        } else {
          assert s[..|s| - 1] == init;
        }
      }
    }
  }

  /** The whole sequence is the distinct prefix exactly when nothing repeats. */
  lemma DistinctPrefixAll<T>(s: seq<T>)
    ensures DistinctPrefix(s) == |s| <==> NoDuplicates(s)
  {
    DistinctPrefixProperties(s);
    var k := DistinctPrefix(s);
    if k == |s| {
      assert s[..k] == s;
    } else {
      var x := s[k];
      assert x in s[..k];
      var j :| 0 <= j < k && s[..k][j] == x;
      assert s[j] == s[k];
    }
  }

  /** A filter keeps something exactly when some element passes it. */
  lemma KeepEmptyIff<T(!new)>(s: seq<T>, p: T -> bool)
    ensures Keep(s, p) == [] <==> forall x :: x in s ==> !p(x)
  {
    var r := Keep(s, p);
    if r != [] {
      assert r[0] in r;
    }
  }

  /** In a duplicate-free prefix every element is new when it is reached. */
  lemma NoDuplicatesPrefixFresh<T>(s: seq<T>, n: nat)
    requires n <= |s| && NoDuplicates(s[..n])
    ensures forall m :: 0 <= m < n ==> s[m] !in s[..m]
  {
    forall m | 0 <= m < n
      ensures s[m] !in s[..m]
    {
      forall j | 0 <= j < m
        ensures s[..m][j] != s[m]
      {
        assert s[..n][j] == s[j] && s[..n][m] == s[m];
      }
    }
  }

  /** A position whose element repeats an earlier one, with no repeat before it, is where
      the distinct prefix ends. */
  lemma DistinctPrefixAt<T>(s: seq<T>, i: nat)
    requires i < |s| && NoDuplicates(s[..i]) && s[i] in s[..i]
    ensures DistinctPrefix(s) == i
  {
    DistinctPrefixProperties(s);
    NoDuplicatesPrefixFresh(s, DistinctPrefix(s));
    NoDuplicatesPrefixFresh(s, i);
  }
}
