/** Sorting and truncation as both recommenders do them:
    `recommendations.sort(key=lambda x: x['fit_score'], reverse=True)`
    followed by `recommendations[:top_k]`. Python's sort is stable, also with
    reverse=True, so equal fit scores keep the order in which they were
    appended. */
module Ranking {

  /** Python's s[:k] for any integer k (a negative k counts from the end). */
  function Prefix<T>(s: seq<T>, k: int): (r: seq<T>)
    ensures |r| <= |s| && r == s[..|r|]
    ensures 0 <= k ==> |r| == if k <= |s| then k else |s|
    ensures k < 0 ==> |r| == if -k <= |s| then |s| + k else 0
  {
    if 0 <= k then (if k <= |s| then s[..k] else s)
    else if -k <= |s| then s[..|s| + k]
    else []
  }

  /** s[:k] keeps only elements of s, and keeps s sorted. */
  lemma PrefixKeeps<T>(s: seq<T>, k: int, key: T -> int)
    ensures forall x :: x in Prefix(s, k) ==> x in s
    ensures SortedDesc(s, key) ==> SortedDesc(Prefix(s, k), key)
  {
    var r := Prefix(s, k);
    assert forall i :: 0 <= i < |r| ==> r[i] == s[i];
  }

  predicate SortedDesc<T>(s: seq<T>, key: T -> int)
  {
    forall i, j :: 0 <= i < j < |s| ==> key(s[i]) >= key(s[j])
  }

  /** The elements of s whose key is v, in their order in s. */
  function KeyFilter<T>(s: seq<T>, key: T -> int, v: int): seq<T>
    decreases |s|
  {
    if s == [] then [] else (if key(s[0]) == v then [s[0]] else []) + KeyFilter(s[1..], key, v)
  }

  /** t and s hold, key by key, the same elements in the same order. */
  ghost predicate SameGroups<T>(t: seq<T>, s: seq<T>, key: T -> int)
  {
    forall v :: KeyFilter(t, key, v) == KeyFilter(s, key, v)
  }

  /** a is a subsequence of b: b with some elements dropped, order kept. */
  predicate IsSubsequence<T(==)>(a: seq<T>, b: seq<T>)
    decreases |b|
  {
    if a == [] then true
    else if b == [] then false
    else if a[0] == b[0] then IsSubsequence(a[1..], b[1..])
    else IsSubsequence(a, b[1..])
  }

  lemma {:induction false} PrefixIsSubsequence<T>(a: seq<T>, b: seq<T>, n: nat)
    requires IsSubsequence(a, b)
    requires n <= |a|
    ensures IsSubsequence(a[..n], b)
    decreases |b|
  {
    if n == 0 {
    } else if a[0] == b[0] {
      assert a[..n][1..] == a[1..][..n - 1];
      PrefixIsSubsequence(a[1..], b[1..], n - 1);
    } else {
      PrefixIsSubsequence(a, b[1..], n);
    }
  }

  /** Inserting x into a descending list after every element whose key is at
      least key(x): the step of a stable insertion sort. */
  function Insert<T>(x: T, s: seq<T>, key: T -> int): seq<T>
    decreases |s|
  {
    if s == [] then [x]
    else if key(s[0]) < key(x) then [x] + s
    else [s[0]] + Insert(x, s[1..], key)
  }

  /** A stable sort by descending key. */
  function SortDesc<T>(s: seq<T>, key: T -> int): seq<T>
    decreases |s|
  {
    if s == [] then [] else Insert(s[|s| - 1], SortDesc(s[..|s| - 1], key), key)
  }

  lemma {:induction false} KeyFilterAppend<T>(a: seq<T>, b: seq<T>, key: T -> int, v: int)
    ensures KeyFilter(a + b, key, v) == KeyFilter(a, key, v) + KeyFilter(b, key, v)
    decreases |a|
  {
    if a == [] {
      assert a + b == b;
    } else {
      var h := if key(a[0]) == v then [a[0]] else [];
      assert (a + b)[0] == a[0];
      assert (a + b)[1..] == a[1..] + b;
      assert KeyFilter(a + b, key, v) == h + KeyFilter(a[1..] + b, key, v);
      KeyFilterAppend(a[1..], b, key, v);
      assert KeyFilter(a, key, v) == h + KeyFilter(a[1..], key, v);
      assert h + (KeyFilter(a[1..], key, v) + KeyFilter(b, key, v))
          == (h + KeyFilter(a[1..], key, v)) + KeyFilter(b, key, v);
    }
  }

  lemma {:induction false} KeyFilterMembers<T>(s: seq<T>, key: T -> int, v: int, x: T)
    requires x in KeyFilter(s, key, v)
    ensures x in s && key(x) == v
    decreases |s|
  {
    if x != s[0] || key(s[0]) != v {
      KeyFilterMembers(s[1..], key, v, x);
    }
  }

  lemma {:induction false} SortedHeadIsMax<T>(s: seq<T>, key: T -> int, x: T)
    requires SortedDesc(s, key)
    requires x in s
    ensures key(x) <= key(s[0])
  {
    var i :| 0 <= i < |s| && s[i] == x;
    if i > 0 {
      assert key(s[0]) >= key(s[i]);
    }
  }

  lemma {:induction false} KeyFilterBelowHead<T>(s: seq<T>, key: T -> int, v: int)
    requires SortedDesc(s, key)
    requires s != [] ==> key(s[0]) < v
    ensures KeyFilter(s, key, v) == []
  {
    if KeyFilter(s, key, v) != [] {
      var x := KeyFilter(s, key, v)[0];
      KeyFilterMembers(s, key, v, x);
      SortedHeadIsMax(s, key, x);
    }
  }

  lemma {:induction false} InsertPermutes<T>(x: T, s: seq<T>, key: T -> int)
    ensures multiset(Insert(x, s, key)) == multiset(s) + multiset{x}
    decreases |s|
  {
    if s != [] && key(s[0]) >= key(x) {
      InsertPermutes(x, s[1..], key);
      assert s == [s[0]] + s[1..];
    }
  }

  lemma {:induction false} InsertSorted<T>(x: T, s: seq<T>, key: T -> int)
    requires SortedDesc(s, key)
    ensures SortedDesc(Insert(x, s, key), key)
    decreases |s|
  {
    if s != [] && key(s[0]) >= key(x) {
      var rest := Insert(x, s[1..], key);
      InsertSorted(x, s[1..], key);
      InsertPermutes(x, s[1..], key);
      forall j | 0 <= j < |rest|
        ensures key(s[0]) >= key(rest[j])
      {
        assert rest[j] in multiset(rest);
        if rest[j] != x {
          assert rest[j] in s[1..];
        }
      }
    }
  }

  lemma {:induction false} InsertGroups<T>(x: T, s: seq<T>, key: T -> int, v: int)
    requires SortedDesc(s, key)
    ensures KeyFilter(Insert(x, s, key), key, v)
         == KeyFilter(s, key, v) + (if key(x) == v then [x] else [])
    decreases |s|
  {
    var tail: seq<T> := if key(x) == v then [x] else [];
    if s == [] {
      assert Insert(x, s, key) == [x];
      assert KeyFilter([x], key, v) == tail + KeyFilter([x][1..], key, v);
    } else if key(s[0]) < key(x) {
      assert Insert(x, s, key) == [x] + s;
      assert ([x] + s)[1..] == s;
      assert KeyFilter([x] + s, key, v) == tail + KeyFilter(s, key, v);
      if key(x) == v {
        KeyFilterBelowHead(s, key, v);
      }
    } else {
      var h := if key(s[0]) == v then [s[0]] else [];
      var rest := Insert(x, s[1..], key);
      assert Insert(x, s, key) == [s[0]] + rest;
      assert ([s[0]] + rest)[1..] == rest;
      assert KeyFilter([s[0]] + rest, key, v) == h + KeyFilter(rest, key, v);
      InsertGroups(x, s[1..], key, v);
      assert KeyFilter(s, key, v) == h + KeyFilter(s[1..], key, v);
      assert h + (KeyFilter(s[1..], key, v) + tail) == (h + KeyFilter(s[1..], key, v)) + tail;
    }
  }

  /** SortDesc sorts, permutes, and keeps each group of equal keys in its
      original order. */
  lemma {:induction false} SortDescCorrect<T>(s: seq<T>, key: T -> int)
    ensures SortedDesc(SortDesc(s, key), key)
    ensures multiset(SortDesc(s, key)) == multiset(s)
    ensures SameGroups(SortDesc(s, key), s, key)
    decreases |s|
  {
    if s != [] {
      var init, last := s[..|s| - 1], s[|s| - 1];
      assert s == init + [last];
      SortDescCorrect(init, key);
      InsertSorted(last, SortDesc(init, key), key);
      InsertPermutes(last, SortDesc(init, key), key);
      forall v
        ensures KeyFilter(SortDesc(s, key), key, v) == KeyFilter(s, key, v)
      {
        InsertGroups(last, SortDesc(init, key), key, v);
        KeyFilterAppend(init, [last], key, v);
      }
    }
  }

  lemma SameGroupsNonEmpty<T>(t1: seq<T>, t2: seq<T>, key: T -> int)
    requires SameGroups(t1, t2, key) || SameGroups(t2, t1, key)
    ensures t1 != [] ==> t2 != []
  {
    if t1 != [] {
      assert KeyFilter(t1, key, key(t1[0])) != [];
      assert KeyFilter(t2, key, key(t1[0])) != [];
    }
  }

  /** Two descending lists with the same groups are equal. */
  lemma {:induction false} SortedGroupsDetermine<T>(t1: seq<T>, t2: seq<T>, key: T -> int)
    requires SortedDesc(t1, key) && SortedDesc(t2, key)
    requires SameGroups(t1, t2, key)
    ensures t1 == t2
    decreases |t1|
  {
    if t1 == [] || t2 == [] {
      SameGroupsNonEmpty(t1, t2, key);
      SameGroupsNonEmpty(t2, t1, key);
    } else {
      var k1, k2 := key(t1[0]), key(t2[0]);
      assert KeyFilter(t2, key, k2)[0] == t2[0];
      KeyFilterMembers(t1, key, k2, t2[0]);
      SortedHeadIsMax(t1, key, t2[0]);
      assert KeyFilter(t1, key, k1)[0] == t1[0];
      KeyFilterMembers(t2, key, k1, t1[0]);
      SortedHeadIsMax(t2, key, t1[0]);
      assert k1 == k2;
      assert KeyFilter(t1, key, k1) == KeyFilter(t2, key, k1);
      assert KeyFilter(t2, key, k1)[0] == t2[0];
      assert t1[0] == t2[0];
      forall v
        ensures KeyFilter(t1[1..], key, v) == KeyFilter(t2[1..], key, v)
      {
        var a, b := KeyFilter(t1[1..], key, v), KeyFilter(t2[1..], key, v);
        var h: seq<T> := if k1 == v then [t1[0]] else [];
        assert KeyFilter(t1, key, v) == h + a;
        assert KeyFilter(t2, key, v) == h + b;
        assert (h + a)[|h|..] == a;
        assert (h + b)[|h|..] == b;
      }
      SortedGroupsDetermine(t1[1..], t2[1..], key);
    }
  }

  /** Every stable descending sort of s gives SortDesc(s, key): a sorted list
      with the groups of s is SortDesc(s, key). */
  lemma StableSortUnique<T>(t: seq<T>, s: seq<T>, key: T -> int)
    requires SortedDesc(t, key)
    requires SameGroups(t, s, key)
    ensures t == SortDesc(s, key)
  {
    SortDescCorrect(s, key);
    SortedGroupsDetermine(t, SortDesc(s, key), key);
  }

  /** The elements of s whose key is above min, in their order in s: the
      `if fit_score > threshold: recommendations.append(...)` of the loop. */
  function KeepAbove<T>(s: seq<T>, key: T -> int, min: int): seq<T>
    decreases |s|
  {
    if s == [] then [] else (if key(s[0]) > min then [s[0]] else []) + KeepAbove(s[1..], key, min)
  }

  lemma {:induction false} KeepAboveAppend<T>(a: seq<T>, b: seq<T>, key: T -> int, min: int)
    ensures KeepAbove(a + b, key, min) == KeepAbove(a, key, min) + KeepAbove(b, key, min)
    decreases |a|
  {
    if a == [] {
      assert a + b == b;
    } else {
      assert (a + b)[1..] == a[1..] + b;
      KeepAboveAppend(a[1..], b, key, min);
    }
  }

  lemma {:induction false} KeepAboveLength<T>(s: seq<T>, key: T -> int, min: int)
    ensures |KeepAbove(s, key, min)| <= |s|
    decreases |s|
  {
    if s != [] {
      KeepAboveLength(s[1..], key, min);
    }
  }

  lemma {:induction false} KeepAboveMembers<T>(s: seq<T>, key: T -> int, min: int, x: T)
    ensures x in KeepAbove(s, key, min) <==> x in s && key(x) > min
    decreases |s|
  {
    if s != [] {
      KeepAboveMembers(s[1..], key, min, x);
      assert x in s <==> x == s[0] || x in s[1..];
    }
  }

  /** Filtering keeps each group above min whole and in order, and drops
      every group at or below it. */
  lemma {:induction false} KeepAboveGroups<T>(s: seq<T>, key: T -> int, min: int, v: int)
    ensures KeyFilter(KeepAbove(s, key, min), key, v) == if v > min then KeyFilter(s, key, v) else []
    decreases |s|
  {
    if s != [] {
      KeepAboveGroups(s[1..], key, min, v);
      var h := if key(s[0]) > min then [s[0]] else [];
      KeyFilterAppend(h, KeepAbove(s[1..], key, min), key, v);
    }
  }

  /** A subsequence of the tail of b is a subsequence of b. */
  lemma {:induction false} SubsequenceOfTail<T>(a: seq<T>, b: seq<T>)
    requires b != [] && IsSubsequence(a, b[1..])
    ensures IsSubsequence(a, b)
    decreases |b|, 0
  {
    if a != [] && a[0] == b[0] {
      SubsequenceDropHead(a, b[1..]);
    }
  }

  /** Dropping the first element of a subsequence keeps it a subsequence. */
  lemma {:induction false} SubsequenceDropHead<T>(a: seq<T>, b: seq<T>)
    requires a != [] && IsSubsequence(a, b)
    ensures IsSubsequence(a[1..], b)
    decreases |b|, 1
  {
    if a[0] == b[0] {
      SubsequenceOfTail(a[1..], b);
    } else {
      SubsequenceDropHead(a, b[1..]);
      SubsequenceOfTail(a[1..], b);
    }
  }

  /** The number of elements of s that satisfy f. */
  function CountWhere<T, C>(s: seq<T>, ctx: C, f: (T, C) -> bool): (n: nat)
    ensures n <= |s|
    decreases |s|
  {
    if s == [] then 0 else CountWhere(s[..|s| - 1], ctx, f) + (if f(s[|s| - 1], ctx) then 1 else 0)
  }

  /** The positions of the elements of s that satisfy f. */
  ghost function Positions<T, C>(s: seq<T>, ctx: C, f: (T, C) -> bool): set<nat>
  {
    set i: nat | i < |s| && f(s[i], ctx)
  }

  lemma {:induction false} CountWhereIsPositions<T, C>(s: seq<T>, ctx: C, f: (T, C) -> bool)
    ensures CountWhere(s, ctx, f) == |Positions(s, ctx, f)|
    decreases |s|
  {
    if s == [] {
      assert Positions(s, ctx, f) == {};
    } else {
      var n := |s| - 1;
      var init := s[..n];
      CountWhereIsPositions(init, ctx, f);
      var last: set<nat> := if f(s[n], ctx) then {n} else {};
      forall i: nat
        ensures i in Positions(s, ctx, f) <==> i in Positions(init, ctx, f) + last
      {
        if i < n {
          assert init[i] == s[i];
        }
      }
      assert Positions(s, ctx, f) == Positions(init, ctx, f) + last;
      assert n !in Positions(init, ctx, f);
    }
  }

  /** Every element satisfies f exactly when all of them are counted. */
  lemma {:induction false} CountWhereAll<T, C>(s: seq<T>, ctx: C, f: (T, C) -> bool)
    ensures CountWhere(s, ctx, f) == |s| <==> forall i :: 0 <= i < |s| ==> f(s[i], ctx)
    decreases |s|
  {
    if s != [] {
      var init := s[..|s| - 1];
      CountWhereAll(init, ctx, f);
      assert forall i :: 0 <= i < |init| ==> init[i] == s[i];
    }
  }

  /** No element satisfies f exactly when none is counted. */
  lemma {:induction false} CountWhereNone<T, C>(s: seq<T>, ctx: C, f: (T, C) -> bool)
    ensures CountWhere(s, ctx, f) == 0 <==> forall i :: 0 <= i < |s| ==> !f(s[i], ctx)
    decreases |s|
  {
    if s != [] {
      var init := s[..|s| - 1];
      CountWhereNone(init, ctx, f);
      assert forall i :: 0 <= i < |init| ==> init[i] == s[i];
    }
  }

  /** Appending the same element to both, or only to the larger, keeps a
      subsequence. */
  lemma {:induction false} SubsequenceSnoc<T>(a: seq<T>, b: seq<T>, x: T, keep: bool)
    requires IsSubsequence(a, b)
    ensures IsSubsequence(a + (if keep then [x] else []), b + [x])
    decreases |b|
  {
    var a' := a + (if keep then [x] else []);
    if b == [] {
      assert a == [];
      if keep {
        assert a' == [x];
        assert IsSubsequence(a'[1..], (b + [x])[1..]);
      }
    } else if a != [] && a[0] == b[0] {
      SubsequenceSnoc(a[1..], b[1..], x, keep);
      assert a'[1..] == a[1..] + (if keep then [x] else []);
      assert (b + [x])[1..] == b[1..] + [x];
    } else {
      if a == [] {
        if keep {
          SubsequenceSnoc(a, b[1..], x, keep);
        } else {
          assert a' == [];
        }
      } else {
        SubsequenceSnoc(a, b[1..], x, keep);
      }
      if a' != [] {
        assert (b + [x])[1..] == b[1..] + [x];
        SubsequenceOfTail(a', b + [x]);
      }
    }
  }
}
