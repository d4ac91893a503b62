/** Sequence helpers shared by the mesh models: optional values, duplicate-free
    sequences (an insertion-ordered JavaScript `Set` is modelled as one), and the
    `Array` operations the sources use (`filter`, `slice`, `splice`,
    `Array.from(new Set(...))`). */
module Seqs {

  datatype Option<+T> = None | Some(value: T)

  /** No element occurs twice. */
  predicate NoDup<T(==)>(s: seq<T>) {
    forall i, j :: 0 <= i < j < |s| ==> s[i] != s[j]
  }

  /** `s.slice(0, n)`: the first `n` elements, or all of them. */
  function Take<T>(s: seq<T>, n: nat): (r: seq<T>)
    ensures |r| <= n && |r| <= |s|
    ensures |r| == if |s| <= n then |s| else n
    ensures r <= s
  {
    if |s| <= n then s else s[..n]
  }

  /** `s.filter(x => !excluded.includes(x))`: the elements of `s` outside
      `excluded`, in their original order. */
  function Minus<T(==)>(s: seq<T>, excluded: seq<T>): (r: seq<T>)
    ensures forall x :: x in r ==> x in s && x !in excluded
    ensures forall x :: x in s && x !in excluded ==> x in r
    ensures |r| <= |s|
    ensures NoDup(s) ==> NoDup(r)
  {
    if s == [] then []
    else
      var rest := Minus(s[1..], excluded);
      assert forall x :: x in s[1..] ==> x in s;
      if s[0] in excluded then rest else [s[0]] + rest
  }

  /** `set.add(x)` on an insertion-ordered set: appended unless present. */
  function Add<T(==)>(s: seq<T>, x: T): seq<T> {
    if x in s then s else s + [x]
  }

  lemma AddSpec<T>(s: seq<T>, x: T)
    requires NoDup(s)
    ensures NoDup(Add(s, x))
    ensures forall y :: y in Add(s, x) <==> y in s || y == x
    ensures |Add(s, x)| == if x in s then |s| else |s| + 1
  {
  }

  /** `Array.from(new Set(s))`: each value at its first occurrence. */
  function Dedup<T(==)>(s: seq<T>): (r: seq<T>)
    ensures NoDup(r)
    ensures forall x :: x in r ==> x in s
    ensures forall x :: x in s ==> x in r
    ensures |r| <= |s|
  {
    if s == [] then []
    else
      var r := Dedup(s[..|s| - 1]);
      assert forall x :: x in s[..|s| - 1] ==> x in s;
      assert s == s[..|s| - 1] + [s[|s| - 1]];
      Add(r, s[|s| - 1])
  }

  /** Deduplicating a sequence that has no duplicates changes nothing. */
  lemma {:induction false} DedupOfNoDup<T>(s: seq<T>)
    requires NoDup(s)
    ensures Dedup(s) == s
  {
    if s != [] {
      var init := s[..|s| - 1];
      assert NoDup(init);
      DedupOfNoDup(init);
      assert s[|s| - 1] !in init;
      assert init + [s[|s| - 1]] == s;
    }
  }

  /** `s.splice(i, 1)`: the sequence without its element at index `i`. */
  function RemoveAt<T>(s: seq<T>, i: nat): (r: seq<T>)
    requires i < |s|
    ensures |r| == |s| - 1
    ensures multiset(r) == multiset(s) - multiset{s[i]}
  {
    assert s == s[..i] + [s[i]] + s[i + 1..];
    s[..i] + s[i + 1..]
  }

  lemma RemoveAtKeepsNoDup<T>(s: seq<T>, i: nat)
    requires i < |s| && NoDup(s)
    ensures NoDup(RemoveAt(s, i))
    ensures forall x :: x in RemoveAt(s, i) <==> x in s && x != s[i]
  {
    var r := RemoveAt(s, i);
    forall a, b | 0 <= a < b < |r| ensures r[a] != r[b] {
      var a' := if a < i then a else a + 1;
      var b' := if b < i then b else b + 1;
      assert r[a] == s[a'] && r[b] == s[b'];
    }
    forall x ensures x in r <==> x in s && x != s[i] {
      if x in r {
        var k :| 0 <= k < |r| && r[k] == x;
        assert x == s[if k < i then k else k + 1];
      }
      if x in s && x != s[i] {
        var k :| 0 <= k < |s| && s[k] == x;
        assert k != i;
        assert r[if k < i then k else k - 1] == x;
      }
    }
  }

  /** Removing a value from a duplicate-free sequence by filtering is the
      same as cutting it out at its index. */
  lemma MinusOfNoDup<T>(s: seq<T>, i: nat)
    requires i < |s| && NoDup(s)
    ensures Minus(s, [s[i]]) == RemoveAt(s, i)
  {
    MinusCut(s, i);
  }

  /** Filtering out the value at index `i` of a duplicate-free sequence
      leaves the elements before and after it. */
  lemma {:induction false} MinusCut<T>(s: seq<T>, i: nat)
    requires i < |s| && NoDup(s)
    ensures Minus(s, [s[i]]) == s[..i] + s[i + 1..]
    decreases |s|
  {
    var t := s[1..];
    if i == 0 {
      assert s[0] !in t;
      MinusNotIn(t, s[0]);
    } else {
      assert NoDup(t);
      assert t[i - 1] == s[i] && s[0] !in [s[i]];
      MinusCut(t, i - 1);
      assert Minus(s, [s[i]]) == [s[0]] + (t[..i - 1] + t[i..]);
      CutOfTail(s, i);
    }
  }

  /** Cutting out index `i > 0` commutes with taking the tail. */
  lemma CutOfTail<T>(s: seq<T>, i: nat)
    requires 0 < i < |s|
    ensures s[1..][..i - 1] + s[1..][i..] == s[1..i] + s[i + 1..]
    ensures s[..i] + s[i + 1..] == [s[0]] + (s[1..i] + s[i + 1..])
  {
  }

  /** Filtering out an absent value changes nothing. */
  lemma {:induction false} MinusNotIn<T>(s: seq<T>, x: T)
    requires x !in s
    ensures Minus(s, [x]) == s
    decreases |s|
  {
    if s != [] {
      MinusNotIn(s[1..], x);
      assert [s[0]] + s[1..] == s;
    }
  }

  /** Filtering distributes over appending one more element. */
  lemma {:induction false} MinusSnoc<T>(s: seq<T>, x: T, excluded: seq<T>)
    ensures Minus(s + [x], excluded) == Minus(s, excluded) + (if x in excluded then [] else [x])
    decreases |s|
  {
    if s == [] {
      assert [x][1..] == [];
    } else {
      assert (s + [x])[1..] == s[1..] + [x];
      MinusSnoc(s[1..], x, excluded);
    }
  }

  /** Filtering one value out of a duplicate-free sequence removes one
      element when the value is present and none otherwise. */
  lemma MinusOneLength<T>(s: seq<T>, x: T)
    requires NoDup(s)
    ensures |Minus(s, [x])| == |s| - (if x in s then 1 else 0)
  {
    if x in s {
      var i :| 0 <= i < |s| && s[i] == x;
      MinusOfNoDup(s, i);
    } else {
      MinusNotIn(s, x);
    }
  }

  /** In a duplicate-free sequence every value occurs at most once. */
  lemma {:induction false} NoDupCount<T>(s: seq<T>, x: T)
    requires NoDup(s)
    ensures multiset(s)[x] <= 1
    decreases |s|
  {
    if s != [] {
      assert s == [s[0]] + s[1..];
      assert NoDup(s[1..]);
      NoDupCount(s[1..], x);
      if x == s[0] {
        assert x !in s[1..];
      }
    }
  }

  /** A permutation of a duplicate-free sequence is duplicate-free. */
  lemma NoDupPermutation<T>(a: seq<T>, b: seq<T>)
    requires NoDup(a) && multiset(a) == multiset(b)
    ensures NoDup(b)
  {
    forall i, j | 0 <= i < j < |b| ensures b[i] != b[j] {
      if b[i] == b[j] {
        assert b == b[..j] + b[j..];
        assert b[i] in b[..j] && b[j] in b[j..];
        assert multiset(b)[b[i]] == multiset(b[..j])[b[i]] + multiset(b[j..])[b[i]];
        NoDupCount(a, b[i]);
        assert false;
      }
    }
  }
}
