/**
 * PHP arrays used as ordered dictionaries: a key sequence in insertion order and the
 * value of each key. `$a[$k] = $v` overwrites the value of a key already present
 * without moving it, and appends a new key at the end.
 */
module PhpArrays {

  ghost predicate Distinct<K>(s: seq<K>) {
    forall i, j :: 0 <= i < j < |s| ==> s[i] != s[j]
  }

  datatype PhpArray<K(==, !new), V> = PhpArray(keys: seq<K>, values: map<K, V>) {

    /** Every key occurs once in the order, and the order holds exactly the keys that have a value. */
    ghost predicate Valid() {
      Distinct(keys) && forall k :: k in values <==> k in keys
    }

    /** `$a[$k] = $v`. */
    function Put(k: K, v: V): (r: PhpArray<K, V>)
      ensures Valid() ==> r.Valid()
    {
      PhpArray(if k in values then keys else keys + [k], values[k := v])
    }
  }

  function Empty<K(==, !new), V>(): (r: PhpArray<K, V>)
    ensures r.Valid() && r.keys == []
  {
    PhpArray([], map[])
  }

  /** The distinct elements of `s`, in the order of their first occurrence. */
  function Dedup<K(==, !new)>(s: seq<K>): (d: seq<K>)
    ensures Distinct(d)
    ensures forall x :: x in d <==> x in s
  {
    if s == [] then []
    else
      var d := Dedup(s[..|s| - 1]);
      if s[|s| - 1] in d then d else d + [s[|s| - 1]]
  }

  /** The position of the first occurrence of `x` in `s`. */
  ghost function FirstIndex<K>(s: seq<K>, x: K): (r: nat)
    requires x in s
    ensures r < |s| && s[r] == x
    ensures forall k :: 0 <= k < r ==> s[k] != x
  {
    if s[0] == x then 0 else 1 + FirstIndex(s[1..], x)
  }

  lemma FirstIndexInPrefix<K>(s: seq<K>, n: nat, x: K)
    requires n <= |s| && x in s[..n]
    ensures FirstIndex(s, x) == FirstIndex(s[..n], x)
  {
    var a, b := FirstIndex(s, x), FirstIndex(s[..n], x);
    assert s[..n][b] == s[b];
  }

  /** `Dedup` keeps the order of first occurrences: an earlier element was seen first. */
  lemma {:induction false} DedupFirstOccurrenceOrder<K(!new)>(s: seq<K>, i: nat, j: nat)
    requires i < j < |Dedup(s)|
    ensures FirstIndex(s, Dedup(s)[i]) < FirstIndex(s, Dedup(s)[j])
  {
    var n := |s| - 1;
    var prefix := s[..n];
    var d' := Dedup(prefix);
    var d := Dedup(s);
    assert d[i] in s && d[j] in s;
    if s[n] in d' {
      assert d == d';
      DedupFirstOccurrenceOrder(prefix, i, j);
      FirstIndexInPrefix(s, n, d[i]);
      FirstIndexInPrefix(s, n, d[j]);
    } else if j < |d'| {
      assert d[i] == d'[i] && d[j] == d'[j];
      DedupFirstOccurrenceOrder(prefix, i, j);
      FirstIndexInPrefix(s, n, d[i]);
      FirstIndexInPrefix(s, n, d[j]);
    } else {
      assert d[j] == s[n] && d[i] == d'[i] && d[i] in prefix;
      FirstIndexInPrefix(s, n, d[i]);
      assert s[n] !in prefix;
      assert FirstIndex(s, d[j]) == n;
    }
  }
}
