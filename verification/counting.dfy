/** Counting by key, the way the system builds its per-level and per-district counts:
    an insertion-ordered dictionary updated with `d[k] = d.get(k, 0) + 1`. */
module Counting {

  /** One key of a tally with its count. */
  datatype Entry<K> = Entry(key: K, count: nat)

  /** The reference definition: how often `k` occurs in `ks`. */
  function Occurrences<K(==)>(ks: seq<K>, k: K): nat
    decreases |ks|
  {
    if |ks| == 0 then 0
    else Occurrences(ks[..|ks| - 1], k) + (if ks[|ks| - 1] == k then 1 else 0)
  }

  predicate HasKey<K(==)>(t: seq<Entry<K>>, k: K)
  {
    exists i :: 0 <= i < |t| && t[i].key == k
  }

  predicate DistinctKeys<K(==)>(t: seq<Entry<K>>)
  {
    forall i, j :: 0 <= i < j < |t| ==> t[i].key != t[j].key
  }

  /** `d.get(k, 0)`. */
  function Get<K(==)>(t: seq<Entry<K>>, k: K): nat
    decreases |t|
  {
    if |t| == 0 then 0
    else if t[0].key == k then t[0].count
    else Get(t[1..], k)
  }

  /** Sum of all counts. */
  function Total<K>(t: seq<Entry<K>>): nat
    decreases |t|
  {
    if |t| == 0 then 0 else t[0].count + Total(t[1..])
  }

  /** `d[k] = d.get(k, 0) + 1`: a present key keeps its place, a new key goes last. */
  function Bump<K(==)>(t: seq<Entry<K>>, k: K): seq<Entry<K>>
    decreases |t|
  {
    if |t| == 0 then [Entry(k, 1)]
    else if t[0].key == k then [Entry(k, t[0].count + 1)] + t[1..]
    else [t[0]] + Bump(t[1..], k)
  }

  /** The loop `for x in ks: d[x] = d.get(x, 0) + 1` starting from an empty dictionary. */
  function TallyOf<K(==)>(ks: seq<K>): seq<Entry<K>>
    decreases |ks|
  {
    if |ks| == 0 then [] else Bump(TallyOf(ks[..|ks| - 1]), ks[|ks| - 1])
  }

  lemma {:induction false} BumpGet<K>(t: seq<Entry<K>>, k: K, x: K)
    ensures Get(Bump(t, k), x) == Get(t, x) + (if x == k then 1 else 0)
    decreases |t|
  {
    if |t| > 0 && t[0].key != k {
      BumpGet(t[1..], k, x);
      assert Bump(t, k)[1..] == Bump(t[1..], k);
    }
  }

  lemma {:induction false} BumpKeys<K>(t: seq<Entry<K>>, k: K, x: K)
    ensures HasKey(Bump(t, k), x) <==> HasKey(t, x) || x == k
    decreases |t|
  {
    var b := Bump(t, k);
    if |t| == 0 {
      assert b[0].key == k;
    } else if t[0].key == k {
      assert b[0].key == k;
      if HasKey(t, x) {
        var i :| 0 <= i < |t| && t[i].key == x;
        assert b[i].key == x;
      }
      if HasKey(b, x) {
        var i :| 0 <= i < |b| && b[i].key == x;
        assert t[i].key == x;
      }
    } else {
      BumpKeys(t[1..], k, x);
      assert b[1..] == Bump(t[1..], k);
      if HasKey(t, x) {
        var i :| 0 <= i < |t| && t[i].key == x;
        if i > 0 {
          assert t[1..][i - 1].key == x;
        } else {
          assert b[0].key == x;
        }
      }
      if HasKey(b, x) && x != k {
        var i :| 0 <= i < |b| && b[i].key == x;
        if i > 0 {
          assert b[1..][i - 1].key == x;
          var j :| 0 <= j < |t[1..]| && t[1..][j].key == x;
          assert t[j + 1].key == x;
        } else {
          assert t[0].key == x;
        }
      }
      if x == k {
        assert HasKey(Bump(t[1..], k), k);
        var j :| 0 <= j < |b[1..]| && b[1..][j].key == k;
        assert b[j + 1].key == k;
      }
    }
  }

  lemma {:induction false} BumpDistinct<K>(t: seq<Entry<K>>, k: K)
    requires DistinctKeys(t)
    ensures DistinctKeys(Bump(t, k))
    decreases |t|
  {
    var b := Bump(t, k);
    if |t| > 0 && t[0].key != k {
      BumpDistinct(t[1..], k);
      assert b[1..] == Bump(t[1..], k);
      forall j | 0 < j < |b|
        ensures b[0].key != b[j].key
      {
        assert b[j] == Bump(t[1..], k)[j - 1];
        BumpKeys(t[1..], k, t[0].key);
        assert !HasKey(t[1..], t[0].key) by {
          forall i | 0 <= i < |t[1..]|
            ensures t[1..][i].key != t[0].key
          {
            assert t[1..][i] == t[i + 1];
          }
        }
      }
    }
  }

  lemma {:induction false} BumpTotal<K>(t: seq<Entry<K>>, k: K)
    ensures Total(Bump(t, k)) == Total(t) + 1
    decreases |t|
  {
    if |t| > 0 {
      var b := Bump(t, k);
      if t[0].key == k {
        assert b[1..] == t[1..];
      } else {
        assert b[1..] == Bump(t[1..], k);
        BumpTotal(t[1..], k);
      }
    }
  }

  lemma {:induction false} BumpPositive<K>(t: seq<Entry<K>>, k: K)
    requires forall i :: 0 <= i < |t| ==> t[i].count >= 1
    ensures forall i :: 0 <= i < |Bump(t, k)| ==> Bump(t, k)[i].count >= 1
    decreases |t|
  {
    if |t| > 0 && t[0].key != k {
      BumpPositive(t[1..], k);
      assert Bump(t, k)[1..] == Bump(t[1..], k);
    }
  }

  /** In a tally with distinct keys, `Get` reads the count stored at the key's entry. */
  lemma {:induction false} GetAt<K>(t: seq<Entry<K>>, i: nat)
    requires DistinctKeys(t)
    requires i < |t|
    ensures Get(t, t[i].key) == t[i].count
    decreases i
  {
    if i > 0 {
      GetAt(t[1..], i - 1);
    }
  }

  lemma {:induction false} GetAbsent<K>(t: seq<Entry<K>>, k: K)
    requires !HasKey(t, k)
    ensures Get(t, k) == 0
    decreases |t|
  {
    if |t| > 0 {
      assert t[0].key != k;
      assert !HasKey(t[1..], k) by {
        forall i | 0 <= i < |t[1..]|
          ensures t[1..][i].key != k
        {
          assert t[1..][i] == t[i + 1];
        }
      }
      GetAbsent(t[1..], k);
    }
  }

  /** The tally agrees with the reference count for every key, lists each key once,
      lists exactly the keys that occur, holds no zero count, and its counts add up
      to the number of items tallied. */
  lemma {:induction false} TallyCorrect<K>(ks: seq<K>)
    ensures forall k :: Get(TallyOf(ks), k) == Occurrences(ks, k)
    ensures DistinctKeys(TallyOf(ks))
    ensures forall k :: HasKey(TallyOf(ks), k) <==> Occurrences(ks, k) >= 1
    ensures forall i :: 0 <= i < |TallyOf(ks)| ==> TallyOf(ks)[i].count >= 1
    ensures Total(TallyOf(ks)) == |ks|
    decreases |ks|
  {
    if |ks| > 0 {
      var init := ks[..|ks| - 1];
      var last := ks[|ks| - 1];
      TallyCorrect(init);
      var t := TallyOf(init);
      forall k
        ensures Get(TallyOf(ks), k) == Occurrences(ks, k)
      {
        BumpGet(t, last, k);
      }
      BumpDistinct(t, last);
      BumpTotal(t, last);
      BumpPositive(t, last);
      forall k
        ensures HasKey(TallyOf(ks), k) <==> Occurrences(ks, k) >= 1
      {
        BumpKeys(t, last, k);
      }
    }
  }

  /** Every entry of a tally carries the reference count of its key. */
  lemma TallyEntries<K>(ks: seq<K>)
    ensures forall i :: 0 <= i < |TallyOf(ks)| ==> TallyOf(ks)[i].count == Occurrences(ks, TallyOf(ks)[i].key)
  {
    TallyCorrect(ks);
    forall i | 0 <= i < |TallyOf(ks)|
      ensures TallyOf(ks)[i].count == Occurrences(ks, TallyOf(ks)[i].key)
    {
      GetAt(TallyOf(ks), i);
      assert Get(TallyOf(ks), TallyOf(ks)[i].key) == Occurrences(ks, TallyOf(ks)[i].key);
    }
  }
}
