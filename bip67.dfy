/**
 * BIP67 key ordering: public keys are compared byte by byte as unsigned
 * values (the order `memcmp` gives), and a sorted multisig script lists them
 * in ascending order. The point of the ordering is that the result depends on
 * the collection of keys only, never on the order in which they were supplied.
 */
module Bip67 {
  import opened Types

  /** Lexicographic `<=` on byte strings (a proper prefix comes first). */
  predicate LexLe(a: Bytes, b: Bytes)
    decreases |a|
  {
    |a| == 0 || (|b| > 0 && (a[0] < b[0] || (a[0] == b[0] && LexLe(a[1..], b[1..]))))
  }

  lemma {:induction false} LexLeReflexive(a: Bytes)
    ensures LexLe(a, a)
    decreases |a|
  {
    if |a| > 0 { LexLeReflexive(a[1..]); }
  }

  lemma {:induction false} LexLeTotal(a: Bytes, b: Bytes)
    ensures LexLe(a, b) || LexLe(b, a)
    decreases |a|
  {
    if |a| > 0 && |b| > 0 && a[0] == b[0] { LexLeTotal(a[1..], b[1..]); }
  }

  lemma {:induction false} LexLeAntisymmetric(a: Bytes, b: Bytes)
    requires LexLe(a, b) && LexLe(b, a)
    ensures a == b
    decreases |a|
  {
    if |a| > 0 {
      LexLeAntisymmetric(a[1..], b[1..]);
      assert a == [a[0]] + a[1..] && b == [b[0]] + b[1..];
    }
  }

  lemma {:induction false} LexLeTransitive(a: Bytes, b: Bytes, c: Bytes)
    requires LexLe(a, b) && LexLe(b, c)
    ensures LexLe(a, c)
    decreases |a|
  {
    if |a| > 0 && a[0] == b[0] == c[0] { LexLeTransitive(a[1..], b[1..], c[1..]); }
  }

  /** Keys in ascending BIP67 order. */
  ghost predicate Sorted(keys: seq<PubKey>)
  {
    forall i, j | 0 <= i < j < |keys| :: LexLe(keys[i], keys[j])
  }

  /** Inserts `k` into `keys` in front of the first key that is not smaller. */
  function Insert(k: PubKey, keys: seq<PubKey>): (r: seq<PubKey>)
    ensures multiset(r) == multiset(keys) + multiset{k}
  {
    if keys == [] then [k]
    else if LexLe(k, keys[0]) then [k] + keys
    else
      assert keys == [keys[0]] + keys[1..];
      [keys[0]] + Insert(k, keys[1..])
  }

  /** Every key of a sorted list is at least its head. */
  lemma HeadIsLeast(keys: seq<PubKey>, x: PubKey)
    requires Sorted(keys) && x in multiset(keys)
    ensures LexLe(keys[0], x)
  {
    var t :| 0 <= t < |keys| && keys[t] == x;
    if t == 0 { LexLeReflexive(x); }
  }

  /** A key no larger than any key of a sorted list can go in front of it. */
  lemma SortedCons(h: PubKey, keys: seq<PubKey>)
    requires Sorted(keys)
    requires forall j | 0 <= j < |keys| :: LexLe(h, keys[j])
    ensures Sorted([h] + keys)
  {
    var r := [h] + keys;
    forall i, j | 0 <= i < j < |r| ensures LexLe(r[i], r[j]) {
      if i == 0 { assert r[j] == keys[j - 1]; } else { assert r[i] == keys[i - 1] && r[j] == keys[j - 1]; }
    }
  }

  /** Insertion keeps a sorted list sorted. */
  lemma {:induction false} InsertSorted(k: PubKey, keys: seq<PubKey>)
    requires Sorted(keys)
    ensures Sorted(Insert(k, keys))
    decreases |keys|
  {
    if keys == [] {
    } else if LexLe(k, keys[0]) {
      forall j | 0 <= j < |keys| ensures LexLe(k, keys[j]) {
        if j > 0 { LexLeTransitive(k, keys[0], keys[j]); }
      }
      SortedCons(k, keys);
    } else {
      var rest := Insert(k, keys[1..]);
      assert Sorted(keys[1..]) by {
        forall i, j | 0 <= i < j < |keys[1..]| ensures LexLe(keys[1..][i], keys[1..][j]) {
          assert keys[1..][i] == keys[i + 1] && keys[1..][j] == keys[j + 1];
        }
      }
      InsertSorted(k, keys[1..]);
      forall j | 0 <= j < |rest| ensures LexLe(keys[0], rest[j]) {
        assert rest[j] in multiset(rest);
        if rest[j] == k {
          LexLeTotal(k, keys[0]);
        } else {
          assert keys == [keys[0]] + keys[1..];
          assert rest[j] in multiset(keys);
          HeadIsLeast(keys, rest[j]);
        }
      }
      SortedCons(keys[0], rest);
    }
  }

  /** The keys in BIP67 order; the reference sort used for the sorted multisig script. */
  function SortKeys(keys: seq<PubKey>): (r: seq<PubKey>)
    ensures Sorted(r)
    ensures multiset(r) == multiset(keys)
    ensures |r| == |keys|
  {
    if keys == [] then []
    else
      assert keys == [keys[0]] + keys[1..];
      InsertSorted(keys[0], SortKeys(keys[1..]));
      Insert(keys[0], SortKeys(keys[1..]))
  }

  /** Dropping the head of a list removes one occurrence of it from the multiset. */
  lemma MultisetTail(s: seq<PubKey>)
    requires |s| > 0
    ensures multiset(s[1..]) == multiset(s) - multiset{s[0]}
  {
    assert s == [s[0]] + s[1..];
  }

  /** Two sorted key lists holding the same keys are the same list. */
  lemma {:induction false} SortedUnique(a: seq<PubKey>, b: seq<PubKey>)
    requires Sorted(a) && Sorted(b)
    requires multiset(a) == multiset(b)
    ensures a == b
    decreases |a|
  {
    if a == [] {
      assert |multiset(b)| == 0;
    } else {
      assert |b| == |multiset(b)| == |multiset(a)| == |a| > 0;
      HeadIsLeast(b, a[0]);
      assert b[0] in multiset(a);
      HeadIsLeast(a, b[0]);
      LexLeAntisymmetric(a[0], b[0]);
      assert a[0] == b[0];
      MultisetTail(a);
      MultisetTail(b);
      SortedUnique(a[1..], b[1..]);
    }
  }

  /** Any correct sort agrees with SortKeys: the BIP67 order of a key collection is unique. */
  lemma SortIsUnique(keys: seq<PubKey>, sorted: seq<PubKey>)
    requires Sorted(sorted) && multiset(sorted) == multiset(keys)
    ensures sorted == SortKeys(keys)
  {
    SortedUnique(sorted, SortKeys(keys));
  }

  /** The sorted order does not depend on the order the keys were supplied in. */
  lemma SortKeysPermutationInvariant(a: seq<PubKey>, b: seq<PubKey>)
    requires multiset(a) == multiset(b)
    ensures SortKeys(a) == SortKeys(b)
  {
    SortedUnique(SortKeys(a), SortKeys(b));
  }
}
