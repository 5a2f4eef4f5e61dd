/**
 The order in which the world state's range scan returns keys: ascending
 lexicographic order of the keys' characters, a proper prefix first. For
 Unicode scalar values this is the same order as comparing the keys' UTF-8
 bytes, which is what the ledger does.

 `RangeScan` lists a store's entries in that order; `ScanIsUnique` shows
 that the listing is determined by the store alone, so any scan the host
 performs over the full key range yields the same sequence.
 */
module KeyOrder {
  import opened Types

  /** Strict lexicographic order on keys. */
  predicate Less(a: string, b: string)
    decreases |a|
  {
    if |a| == 0 then |b| > 0
    else if |b| == 0 then false
    else if a[0] != b[0] then a[0] < b[0]
    else Less(a[1..], b[1..])
  }

  lemma {:induction false} LessIrreflexive(a: string)
    ensures !Less(a, a)
    decreases |a|
  {
    if |a| > 0 {
      LessIrreflexive(a[1..]);
    }
  }

  lemma {:induction false} LessAsymmetric(a: string, b: string)
    ensures Less(a, b) ==> !Less(b, a)
    decreases |a|
  {
    if |a| > 0 && |b| > 0 && a[0] == b[0] {
      LessAsymmetric(a[1..], b[1..]);
    }
  }

  lemma {:induction false} LessTransitive(a: string, b: string, c: string)
    requires Less(a, b) && Less(b, c)
    ensures Less(a, c)
    decreases |a|
  {
    if |a| > 0 && a[0] == b[0] && b[0] == c[0] {
      LessTransitive(a[1..], b[1..], c[1..]);
    }
  }

  lemma {:induction false} LessTotal(a: string, b: string)
    requires a != b
    ensures Less(a, b) || Less(b, a)
    decreases |a|
  {
    if |a| > 0 && |b| > 0 && a[0] == b[0] {
      assert a == [a[0]] + a[1..] && b == [b[0]] + b[1..];
      LessTotal(a[1..], b[1..]);
    }
  }

  /** `m` is the least key of `keys`. */
  predicate IsLeast(m: string, keys: set<string>) {
    m in keys && forall k :: k in keys && k != m ==> Less(m, k)
  }

  lemma {:induction false} LeastExists(keys: set<string>)
    requires keys != {}
    ensures exists m :: IsLeast(m, keys)
    decreases |keys|
  {
    var x :| x in keys;
    var rest := keys - {x};
    if rest == {} {
      assert keys == {x};
      assert IsLeast(x, keys);
    } else {
      LeastExists(rest);
      var m :| IsLeast(m, rest);
      if Less(x, m) {
        forall k | k in keys && k != x
          ensures Less(x, k)
        {
          if k != m {
            LessTransitive(x, m, k);
          }
        }
        assert IsLeast(x, keys);
      } else {
        LessTotal(x, m);
        assert IsLeast(m, keys);
      }
    }
  }

  lemma LeastIsUnique(m1: string, m2: string, keys: set<string>)
    requires IsLeast(m1, keys) && IsLeast(m2, keys)
    ensures m1 == m2
  {
    if m1 != m2 {
      LessAsymmetric(m1, m2);
    }
  }

  /** The least key of a nonempty key set. */
  function Least(keys: set<string>): (m: string)
    requires keys != {}
    ensures m in keys
    ensures forall k :: k in keys && k != m ==> Less(m, k)
  {
    LeastExists(keys);
    var m :| IsLeast(m, keys);
    assert forall m' :: IsLeast(m', keys) ==> m' == m by {
      forall m' | IsLeast(m', keys)
        ensures m' == m
      {
        LeastIsUnique(m', m, keys);
      }
    }
    m
  }

  /** Every earlier key is less than every later one. */
  predicate StrictlyAscending(ks: seq<string>) {
    forall i, j :: 0 <= i < j < |ks| ==> Less(ks[i], ks[j])
  }

  /** The keys of `keys`, least first. */
  function SortedKeys(keys: set<string>): (ks: seq<string>)
    ensures StrictlyAscending(ks)
    ensures forall k :: k in ks <==> k in keys
    ensures |ks| == |keys|
    decreases |keys|
  {
    if keys == {} then []
    else
      var m := Least(keys);
      var rest := SortedKeys(keys - {m});
      assert forall k :: k in rest ==> Less(m, k);
      [m] + rest
  }

  /** The keys of a scan, in scan order. */
  function ScanKeys(scan: seq<(string, Stored)>): (ks: seq<string>)
    ensures |ks| == |scan|
    ensures forall i :: 0 <= i < |scan| ==> ks[i] == scan[i].0
  {
    seq(|scan|, i requires 0 <= i < |scan| => scan[i].0)
  }

  /** `scan` is a full-range scan of `s`: every entry of `s` exactly once,
      keys ascending, each with the value stored under it. */
  ghost predicate IsRangeScan(s: Store, scan: seq<(string, Stored)>) {
    && StrictlyAscending(ScanKeys(scan))
    && (forall k :: k in ScanKeys(scan) <==> k in s)
    && (forall i :: 0 <= i < |scan| ==> scan[i].0 in s && s[scan[i].0] == scan[i].1)
  }

  /** The full-range scan of a store, over the key range ("", ""). */
  function RangeScan(s: Store): (scan: seq<(string, Stored)>)
    ensures IsRangeScan(s, scan)
    ensures |scan| == |s|
  {
    var ks := SortedKeys(s.Keys);
    var scan := seq(|ks|, i requires 0 <= i < |ks| => (ks[i], s[ks[i]]));
    assert ScanKeys(scan) == ks;
    scan
  }

  /** The first element of a nonempty sequence is a member of it. Called
      where the opposite case is the one being refuted, so the membership
      fact is stated outside that branch. */
  lemma HeadIsMember(b: seq<string>)
    ensures |b| > 0 ==> b[0] in b
  {
  }

  lemma {:induction false} AscendingWithSameKeysAreEqual(a: seq<string>, b: seq<string>)
    requires StrictlyAscending(a) && StrictlyAscending(b)
    requires forall k :: k in a <==> k in b
    ensures a == b
    decreases |a|
  {
    if |a| == 0 {
      HeadIsMember(b);
    } else {
      assert a[0] in b;
      assert |b| > 0;
      assert b[0] in a;
      var i :| 0 <= i < |a| && a[i] == b[0];
      var j :| 0 <= j < |b| && b[j] == a[0];
      if i > 0 && j > 0 {
        LessAsymmetric(a[0], b[0]);
        assert false;
      }
      assert a[0] == b[0];
      forall k
        ensures k in a[1..] <==> k in b[1..]
      {
        if k in a[1..] {
          var p :| 1 <= p < |a| && a[p] == k;
          LessIrreflexive(a[0]);
          assert k != a[0];
          assert k in b;
          var q :| 0 <= q < |b| && b[q] == k;
          assert q != 0;
        }
        if k in b[1..] {
          var q :| 1 <= q < |b| && b[q] == k;
          LessIrreflexive(b[0]);
          assert k != b[0];
          assert k in a;
          var p :| 0 <= p < |a| && a[p] == k;
          assert p != 0;
        }
      }
      AscendingWithSameKeysAreEqual(a[1..], b[1..]);
      assert a == [a[0]] + a[1..] && b == [b[0]] + b[1..];
    }
  }

  /** A store has exactly one full-range scan. */
  lemma ScanIsUnique(s: Store, scan1: seq<(string, Stored)>, scan2: seq<(string, Stored)>)
    requires IsRangeScan(s, scan1) && IsRangeScan(s, scan2)
    ensures scan1 == scan2
  {
    var k1, k2 := ScanKeys(scan1), ScanKeys(scan2);
    AscendingWithSameKeysAreEqual(k1, k2);
    assert |scan1| == |scan2|;
    forall i | 0 <= i < |scan1|
      ensures scan1[i] == scan2[i]
    {
      assert scan1[i].0 == k1[i] == k2[i] == scan2[i].0;
    }
  }
}
