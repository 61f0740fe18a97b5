/** Optional values: Swift's `T?` (nil or a value). */
module Options {
  datatype Option<+T> = None | Some(value: T)
}

/**
 * List operations the controller performs on the fetched objects: the flat
 * list of a sectioned result, and the `NSMutableArray` edits used when a row
 * is moved (`removeObject`, `insertObject:atIndex:`).
 */
module Sequences {

  /** No element occurs twice (managed objects compare by identity). */
  predicate Distinct<T(==)>(s: seq<T>) {
    forall i, j :: 0 <= i < j < |s| ==> s[i] != s[j]
  }

  /** The sections of a result, concatenated in section order. */
  function Flatten<T>(ss: seq<seq<T>>): seq<T> {
    if ss == [] then [] else ss[0] + Flatten(ss[1..])
  }

  /** The sum of the section lengths. */
  function TotalLength<T>(ss: seq<seq<T>>): nat {
    if ss == [] then 0 else |ss[0]| + TotalLength(ss[1..])
  }

  /** Index in the flat list of the first row of section `section`. */
  function Offset<T>(ss: seq<seq<T>>, section: nat): nat
    requires section <= |ss|
  {
    |Flatten(ss[..section])|
  }

  /** `removeObject`: every occurrence of `x` is removed, the rest keeps its order. */
  function RemoveAll<T(==)>(s: seq<T>, x: T): (r: seq<T>)
    ensures x !in r
    ensures |r| <= |s|
  {
    if s == [] then []
    else if s[0] == x then RemoveAll(s[1..], x) else [s[0]] + RemoveAll(s[1..], x)
  }

  /** `removeObject` loses every copy of `x` and nothing else. */
  lemma {:induction false} RemoveAllMultiset<T>(s: seq<T>, x: T)
    ensures multiset(RemoveAll(s, x)) == multiset(s)[x := 0]
  {
    if s != [] {
      assert s == [s[0]] + s[1..];
      RemoveAllMultiset(s[1..], x);
    }
  }

  /** `insertObject:atIndex:`: `x` is placed before the element at index `k`. */
  function InsertAt<T>(s: seq<T>, k: nat, x: T): seq<T>
    requires k <= |s|
  {
    s[..k] + [x] + s[k..]
  }

  /** `s` with the element at index `k` taken out. */
  function RemoveAt<T>(s: seq<T>, k: nat): seq<T>
    requires k < |s|
  {
    s[..k] + s[k + 1..]
  }

  lemma {:induction false} FlattenAppend<T>(a: seq<seq<T>>, b: seq<seq<T>>)
    ensures Flatten(a + b) == Flatten(a) + Flatten(b)
  {
    if a == [] {
      assert a + b == b;
    } else {
      assert (a + b)[1..] == a[1..] + b;
      FlattenAppend(a[1..], b);
    }
  }

  /** The flat list is the sections before `i`, then section `i`, then the sections after it. */
  lemma FlattenSplit<T>(ss: seq<seq<T>>, i: nat)
    requires i < |ss|
    ensures Flatten(ss) == Flatten(ss[..i]) + ss[i] + Flatten(ss[i + 1..])
  {
    var before, tail := ss[..i], ss[i..];
    assert ss == before + tail;
    FlattenAppend(before, tail);
    assert tail[0] == ss[i] && tail[1..] == ss[i + 1..];
    assert Flatten(tail) == ss[i] + Flatten(ss[i + 1..]);
  }

  /** Replacing section `i` replaces its part of the flat list and nothing else. */
  lemma FlattenUpdate<T>(ss: seq<seq<T>>, i: nat, x: seq<T>)
    requires i < |ss|
    ensures Flatten(ss[i := x]) == Flatten(ss[..i]) + x + Flatten(ss[i + 1..])
  {
    var ss' := ss[i := x];
    FlattenSplit(ss', i);
    assert ss'[..i] == ss[..i] && ss'[i + 1..] == ss[i + 1..];
  }

  /** The number of objects in the flat list is the sum of the section lengths. */
  lemma {:induction false} FlattenLength<T>(ss: seq<seq<T>>)
    ensures |Flatten(ss)| == TotalLength(ss)
  {
    if ss != [] {
      FlattenLength(ss[1..]);
    }
  }

  /** The object at row `row` of section `section` sits at flat index `Offset(section) + row`. */
  lemma FlatIndexOf<T>(ss: seq<seq<T>>, section: nat, row: nat)
    requires section < |ss| && row < |ss[section]|
    ensures Offset(ss, section) + row < |Flatten(ss)|
    ensures Flatten(ss)[Offset(ss, section) + row] == ss[section][row]
  {
    FlattenSplit(ss, section);
  }

  lemma {:induction false} RemoveAllAbsent<T>(s: seq<T>, x: T)
    requires x !in s
    ensures RemoveAll(s, x) == s
  {
    if s != [] {
      RemoveAllAbsent(s[1..], x);
      assert s == [s[0]] + s[1..];
    }
  }

  lemma {:induction false} RemoveAllAppend<T>(a: seq<T>, b: seq<T>, x: T)
    ensures RemoveAll(a + b, x) == RemoveAll(a, x) + RemoveAll(b, x)
  {
    if a == [] {
      assert a + b == b;
    } else {
      assert (a + b)[0] == a[0];
      assert (a + b)[1..] == a[1..] + b;
      RemoveAllAppend(a[1..], b, x);
    }
  }

  /**
   * For distinct elements, removing by value is removing at the element's
   * index: `removeObject` on a list of managed objects takes out exactly one entry.
   */
  lemma {:induction false} RemoveAllOfDistinct<T>(s: seq<T>, k: nat)
    requires Distinct(s) && k < |s|
    ensures RemoveAll(s, s[k]) == RemoveAt(s, k)
  {
    if k == 0 {
      assert s[0] !in s[1..];
      RemoveAllAbsent(s[1..], s[0]);
    } else {
      assert s[0] != s[k];
      assert s[1..][k - 1] == s[k];
      RemoveAllOfDistinct(s[1..], k - 1);
      assert s[1..][..k - 1] + s[1..][k..] == s[1..k] + s[k + 1..];
      assert [s[0]] + s[1..k] == s[..k];
    }
  }

  /** Removing inside the middle part of a concatenation leaves the outer parts alone. */
  lemma RemoveAtSplit<T>(a: seq<T>, b: seq<T>, c: seq<T>, i: nat)
    requires i < |b|
    ensures RemoveAt(a + b + c, |a| + i) == a + RemoveAt(b, i) + c
  {
    var s := a + b + c;
    assert s[..|a| + i] == a + b[..i];
    assert s[|a| + i + 1..] == b[i + 1..] + c;
  }

  /** Inserting inside the middle part of a concatenation leaves the outer parts alone. */
  lemma InsertAtSplit<T>(a: seq<T>, b: seq<T>, c: seq<T>, j: nat, x: T)
    requires j <= |b|
    ensures InsertAt(a + b + c, |a| + j, x) == a + InsertAt(b, j, x) + c
  {
    var s := a + b + c;
    assert s[..|a| + j] == a + b[..j];
    assert s[|a| + j..] == b[j..] + c;
  }

  lemma RemoveAtMultiset<T>(s: seq<T>, k: nat)
    requires k < |s|
    ensures multiset(s) == multiset(RemoveAt(s, k)) + multiset{s[k]}
  {
    assert s == s[..k] + [s[k]] + s[k + 1..];
  }

  lemma InsertAtMultiset<T>(s: seq<T>, k: nat, x: T)
    requires k <= |s|
    ensures multiset(InsertAt(s, k, x)) == multiset(s) + multiset{x}
  {
    assert s == s[..k] + s[k..];
  }

  /** Taking `x` out again after inserting it gives back a list without `x`. */
  lemma RemoveAllInsertAt<T>(s: seq<T>, k: nat, x: T)
    requires k <= |s| && x !in s
    ensures RemoveAll(InsertAt(s, k, x), x) == s
  {
    var a, b := s[..k], s[k..];
    assert s == a + b;
    assert x !in a && x !in b;
    RemoveAllAbsent(a, x);
    RemoveAllAbsent(b, x);
    assert RemoveAll([x], x) == [] by {
      assert [x][1..] == [];
    }
    RemoveAllAppend(a, [x], x);
    assert RemoveAll(a + [x], x) == a;
    assert InsertAt(s, k, x) == (a + [x]) + b;
    RemoveAllAppend(a + [x], b, x);
  }

  lemma DistinctRemoveAt<T>(s: seq<T>, k: nat)
    requires Distinct(s) && k < |s|
    ensures Distinct(RemoveAt(s, k))
  {
    var t := RemoveAt(s, k);
    forall a, b | 0 <= a < b < |t| ensures t[a] != t[b] {
      var a' := if a < k then a else a + 1;
      var b' := if b < k then b else b + 1;
      assert t[a] == s[a'] && t[b] == s[b'];
    }
  }

  lemma DistinctInsertAt<T>(s: seq<T>, k: nat, x: T)
    requires Distinct(s) && k <= |s| && x !in s
    ensures Distinct(InsertAt(s, k, x))
  {
    var r := InsertAt(s, k, x);
    forall a, b | 0 <= a < b < |r| ensures r[a] != r[b] {
      if a != k && b != k {
        var a' := if a < k then a else a - 1;
        var b' := if b < k then b else b - 1;
        assert r[a] == s[a'] && r[b] == s[b'];
      } else if a == k {
        assert r[b] == s[b - 1];
      } else {
        assert r[a] == s[a];
      }
    }
  }
}
