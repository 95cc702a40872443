/**
 * Sequence operations that the services and pages use on whole tables:
 * filtering (a `where` clause, `Array.prototype.filter`), first-match lookup
 * (`findUnique`, `findFirst`) and key uniqueness (a primary or unique key).
 */
module Seqs {
  import opened Wrappers

  /** `r` is obtained from `s` by deleting elements, keeping the order of the rest. */
  ghost predicate SubsequenceOf<T>(r: seq<T>, s: seq<T>)
    decreases |s|
  {
    r == [] || (s != [] && ((r[0] == s[0] && SubsequenceOf(r[1..], s[1..])) || SubsequenceOf(r, s[1..])))
  }

  /** No value occurs twice in `s`. */
  ghost predicate Distinct<T>(s: seq<T>) {
    forall i, j :: 0 <= i < j < |s| ==> s[i] != s[j]
  }

  /** The elements of `s` that satisfy `p`, in their original order. */
  function Filter<T>(p: T -> bool, s: seq<T>): (r: seq<T>)
    ensures |r| <= |s|
    ensures forall i :: 0 <= i < |r| ==> r[i] in s && p(r[i])
    ensures forall i :: 0 <= i < |s| && p(s[i]) ==> s[i] in r
  {
    if s == [] then []
    else if p(s[0]) then [s[0]] + Filter(p, s[1..])
    else Filter(p, s[1..])
  }

  /** Filtering only deletes elements: the result is a subsequence of the input. */
  lemma {:induction false} FilterIsSubsequence<T>(p: T -> bool, s: seq<T>)
    ensures SubsequenceOf(Filter(p, s), s)
  {
    if s != [] {
      FilterIsSubsequence(p, s[1..]);
      var r := Filter(p, s);
      if p(s[0]) {
        assert r[0] == s[0] && r[1..] == Filter(p, s[1..]);
      }
    }
  }

  /** When every element passes, filtering changes nothing. */
  lemma {:induction false} FilterKeepsAll<T>(p: T -> bool, s: seq<T>)
    requires forall i :: 0 <= i < |s| ==> p(s[i])
    ensures Filter(p, s) == s
  {
    if s != [] {
      FilterKeepsAll(p, s[1..]);
      assert [s[0]] + s[1..] == s;
    }
  }

  /** Filtering keeps every occurrence of a kept value, duplicates included, and no other value. */
  lemma {:induction false} FilterCounts<T>(p: T -> bool, s: seq<T>)
    ensures forall x :: multiset(Filter(p, s))[x] == if p(x) then multiset(s)[x] else 0
  {
    if s != [] {
      FilterCounts(p, s[1..]);
      assert s == [s[0]] + s[1..];
      assert multiset(s) == multiset{s[0]} + multiset(s[1..]);
      if p(s[0]) {
        assert multiset(Filter(p, s)) == multiset{s[0]} + multiset(Filter(p, s[1..]));
      }
    }
  }

  /** Filtering distributes over concatenation. */
  lemma {:induction false} FilterConcat<T>(p: T -> bool, a: seq<T>, b: seq<T>)
    ensures Filter(p, a + b) == Filter(p, a) + Filter(p, b)
  {
    if a == [] {
      assert a + b == b;
    } else {
      var ab := a + b;
      assert ab[0] == a[0] && ab[1..] == a[1..] + b;
      FilterConcat(p, a[1..], b);
      if p(a[0]) {
        assert Filter(p, ab) == [a[0]] + Filter(p, a[1..] + b);
        assert Filter(p, a) == [a[0]] + Filter(p, a[1..]);
      } else {
        assert Filter(p, ab) == Filter(p, a[1..] + b);
        assert Filter(p, a) == Filter(p, a[1..]);
      }
    }
  }

  /** A one-element sequence keeps its element exactly when it passes. */
  lemma FilterSingle<T>(p: T -> bool, v: T)
    ensures Filter(p, [v]) == if p(v) then [v] else []
  {
    assert [v][1..] == [];
  }

  /** Every element before and after position `k` passes when every element but the `k`-th does. */
  lemma AroundPass<T>(p: T -> bool, s: seq<T>, k: nat, before: seq<T>, after: seq<T>)
    requires k < |s| && before == s[..k] && after == s[k + 1..]
    requires forall i :: 0 <= i < |s| && i != k ==> p(s[i])
    ensures forall i :: 0 <= i < |before| ==> p(before[i])
    ensures forall i :: 0 <= i < |after| ==> p(after[i])
  {
    forall i | 0 <= i < |before| ensures p(before[i]) { assert before[i] == s[i]; }
    forall i | 0 <= i < |after| ensures p(after[i]) { assert after[i] == s[k + 1 + i]; }
  }

  /** When exactly the element at `k` fails, filtering removes exactly that position. */
  lemma FilterDropsOne<T>(p: T -> bool, s: seq<T>, k: nat)
    requires k < |s| && !p(s[k])
    requires forall i :: 0 <= i < |s| && i != k ==> p(s[i])
    ensures Filter(p, s) == s[..k] + s[k + 1..]
  {
    var before, after := s[..k], s[k + 1..];
    var rest := [s[k]] + after;
    assert s == before + rest;
    AroundPass(p, s, k, before, after);
    FilterKeepsAll(p, before);
    FilterKeepsAll(p, after);
    FilterSingle(p, s[k]);
    FilterConcat(p, [s[k]], after);
    assert Filter(p, rest) == after;
    FilterConcat(p, before, rest);
  }

  /** Filtering a sequence without repetitions gives one without repetitions. */
  lemma {:induction false} FilterKeepsDistinct<T>(p: T -> bool, s: seq<T>)
    requires Distinct(s)
    ensures Distinct(Filter(p, s))
  {
    if s != [] {
      FilterKeepsDistinct(p, s[1..]);
      var rest := Filter(p, s[1..]);
      if p(s[0]) {
        assert s[0] !in s[1..];
        assert s[0] !in rest;
        var r := [s[0]] + rest;
        forall i, j | 0 <= i < j < |r| ensures r[i] != r[j] {
          if i == 0 {
            assert r[j] == rest[j - 1];
          } else {
            assert r[i] == rest[i - 1] && r[j] == rest[j - 1];
          }
        }
      }
    }
  }

  /** The position of the first element satisfying `p`, if any. */
  function IndexWhere<T>(s: seq<T>, p: T -> bool): (r: Option<nat>)
    ensures r.Some? ==> r.value < |s| && p(s[r.value])
    ensures r.Some? ==> forall j :: 0 <= j < r.value ==> !p(s[j])
    ensures r.None? <==> forall j :: 0 <= j < |s| ==> !p(s[j])
  {
    if s == [] then None
    else if p(s[0]) then Some(0)
    else
      match IndexWhere(s[1..], p)
      case None => None
      case Some(i) => Some(i + 1)
  }

  /** The first element satisfying `p`, if any. */
  function FindWhere<T>(s: seq<T>, p: T -> bool): (r: Option<T>)
    ensures r.Some? ==> r.value in s && p(r.value)
    ensures r.None? <==> forall i :: 0 <= i < |s| ==> !p(s[i])
  {
    match IndexWhere(s, p)
    case None => None
    case Some(i) => Some(s[i])
  }

  /** No two elements of `s` have the same `key`: a primary or unique column. */
  ghost predicate UniqueBy<T>(s: seq<T>, key: T -> nat) {
    forall i, j :: 0 <= i < j < |s| ==> key(s[i]) != key(s[j])
  }

  /** When keys are unique, the element with a given key sits at one position only. */
  lemma UniqueKeyPosition<T>(s: seq<T>, key: T -> nat, i: nat, j: nat)
    requires UniqueBy(s, key)
    requires i < |s| && j < |s| && key(s[i]) == key(s[j])
    ensures i == j
  {
  }

  /** When keys are unique, no other position holds the key found at `i`. */
  lemma UniqueKeyAt<T>(s: seq<T>, key: T -> nat, i: nat)
    requires UniqueBy(s, key) && i < |s|
    ensures forall j :: 0 <= j < |s| && j != i ==> key(s[j]) != key(s[i])
  {
    forall j | 0 <= j < |s| && j != i ensures key(s[j]) != key(s[i]) {
      if j < i {
        assert key(s[j]) != key(s[i]);
      } else {
        assert key(s[i]) != key(s[j]);
      }
    }
  }

  /** `s` without the element at position `k`. */
  function Without<T>(s: seq<T>, k: nat): (r: seq<T>)
    requires k < |s|
    ensures |r| == |s| - 1
  {
    s[..k] + s[k + 1..]
  }

  /** Removing one element keeps the keys unique, and every remaining element was there before. */
  lemma UniqueByRemove<T>(s: seq<T>, key: T -> nat, k: nat)
    requires UniqueBy(s, key) && k < |s|
    ensures UniqueBy(Without(s, k), key)
    ensures forall j :: 0 <= j < |s| - 1 ==> Without(s, k)[j] in s
  {
    var r := Without(s, k);
    forall a | 0 <= a < |r| ensures r[a] in s {
      if a < k { assert r[a] == s[a]; } else { assert r[a] == s[a + 1]; }
    }
    forall a, b | 0 <= a < b < |r| ensures key(r[a]) != key(r[b]) {
      var a', b' := if a < k then a else a + 1, if b < k then b else b + 1;
      assert r[a] == s[a'] && r[b] == s[b'];
    }
  }

  /** Unique keys make the elements themselves distinct. */
  lemma UniqueByDistinct<T>(s: seq<T>, key: T -> nat)
    requires UniqueBy(s, key)
    ensures Distinct(s)
  {
    forall i, j | 0 <= i < j < |s| ensures s[i] != s[j] {
      assert key(s[i]) != key(s[j]);
    }
  }
}
