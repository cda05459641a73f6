/**
 * sort.Strings over the keys of a Go map: the keys in ascending string order.
 * The ascending sequence of a finite set is unique, so the ghost function
 * SortedKeys names it and the method SortKeys computes it.
 */
module GoSort {
  import opened GoStrings

  ghost predicate Ascending(keys: seq<string>)
  {
    forall i, j :: 0 <= i < j < |keys| ==> Less(keys[i], keys[j])
  }

  ghost predicate IsMinimum(k: string, s: set<string>)
  {
    forall o :: o in s && o != k ==> Less(k, o)
  }

  lemma MinimumExists(s: set<string>)
    requires s != {}
    ensures exists k :: k in s && IsMinimum(k, s)
    decreases s
  {
    var x :| x in s;
    if s != {x} {
      var rest := s - {x};
      MinimumExists(rest);
      var m :| m in rest && IsMinimum(m, rest);
      LessTotal(x, m);
      if Less(x, m) {
        forall o | o in s && o != x ensures Less(x, o) {
          if o != m { LessTransitive(x, m, o); }
        }
      } else {
        assert IsMinimum(m, s);
      }
    }
  }

  /** The keys of `s` in ascending order. */
  ghost function SortedKeys(s: set<string>): (keys: seq<string>)
    ensures Ascending(keys)
    ensures forall k :: k in keys <==> k in s
    ensures |keys| == |s|
    decreases s
  {
    if s == {} then []
    else
      MinimumExists(s);
      var k :| k in s && IsMinimum(k, s);
      var rest := SortedKeys(s - {k});
      assert forall j :: 0 <= j < |rest| ==> rest[j] in s - {k};
      [k] + rest
  }

  /** The head of an ascending sequence comes before every other element. */
  lemma HeadIsLeast(a: seq<string>)
    requires Ascending(a) && |a| > 0
    ensures forall k :: k in a && k != a[0] ==> Less(a[0], k)
  {
    forall k | k in a && k != a[0] ensures Less(a[0], k) {
      var i :| 0 <= i < |a| && a[i] == k;
    }
  }

  lemma LeastUnique(x: string, y: string)
    requires x == y || Less(x, y)
    requires x == y || Less(y, x)
    ensures x == y
  {
    if x != y {
      LessAsymmetric(x, y);
    }
  }

  /** Two ascending sequences with the same elements are equal. */
  lemma {:induction false} AscendingUnique(a: seq<string>, b: seq<string>)
    requires Ascending(a) && Ascending(b)
    requires forall k :: k in a <==> k in b
    ensures a == b
    decreases |a|
  {
    if |a| > 0 {
      assert a[0] in a;
    }
    if |b| > 0 {
      assert b[0] in b;
    }
    if |a| > 0 && |b| > 0 {
      HeadIsLeast(a);
      HeadIsLeast(b);
      LeastUnique(a[0], b[0]);
      assert a == [a[0]] + a[1..] && b == [b[0]] + b[1..];
      forall k ensures k in a[1..] <==> k in b[1..] {
        if k in a[1..] {
          var i :| 0 <= i < |a[1..]| && a[1..][i] == k;
          assert a[i + 1] == k && Less(a[0], a[i + 1]);
          LessIrreflexive(a[0]);
          assert k in b && k != b[0];
          assert k in [b[0]] + b[1..];
        }
        if k in b[1..] {
          var i :| 0 <= i < |b[1..]| && b[1..][i] == k;
          assert b[i + 1] == k && Less(b[0], b[i + 1]);
          LessIrreflexive(b[0]);
          assert k in a && k != a[0];
          assert k in [a[0]] + a[1..];
        }
      }
      AscendingUnique(a[1..], b[1..]);
    }
  }

  /** An ascending sequence has no repeated element. */
  lemma AscendingDistinct(keys: seq<string>, i: int, j: int)
    requires Ascending(keys) && 0 <= i < j < |keys|
    ensures keys[i] != keys[j]
  {
    LessIrreflexive(keys[i]);
  }

  /** Inserts a new key at its place in an ascending sequence. */
  method InsertSorted(keys: seq<string>, k: string) returns (r: seq<string>)
    requires Ascending(keys) && k !in keys
    ensures Ascending(r)
    ensures forall x :: x in r <==> x in keys || x == k
  {
    var p := 0;
    while p < |keys| && Less(keys[p], k)
      invariant 0 <= p <= |keys|
      invariant forall q :: 0 <= q < p ==> Less(keys[q], k)
    {
      p := p + 1;
    }
    r := keys[..p] + [k] + keys[p..];
    assert p < |keys| ==> Less(k, keys[p]) by {
      if p < |keys| {
        assert keys[p] in keys;
        LessTotal(k, keys[p]);
      }
    }
    forall i, j | 0 <= i < j < |r| ensures Less(r[i], r[j]) {
      if j == p {
        assert r[i] == keys[i];
      } else if i == p {
        assert r[j] == keys[j - 1];
        if j - 1 > p { LessTransitive(k, keys[p], keys[j - 1]); }
      } else if i < p && j > p {
        assert r[i] == keys[i] && r[j] == keys[j - 1];
        if j - 1 >= p {
          assert Less(keys[i], k);
          assert Less(k, keys[p]);
          LessTransitive(keys[i], k, keys[p]);
          if j - 1 > p { LessTransitive(keys[i], keys[p], keys[j - 1]); }
        }
      } else if j < p {
        assert r[i] == keys[i] && r[j] == keys[j];
      } else {
        assert r[i] == keys[i - 1] && r[j] == keys[j - 1];
      }
    }
    assert keys == keys[..p] + keys[p..];
  }

  /** Collects the keys of a map (in whatever order the map yields them) and sorts them. */
  method SortKeys(s: set<string>) returns (keys: seq<string>)
    ensures keys == SortedKeys(s)
  {
    keys := [];
    var remaining := s;
    while remaining != {}
      invariant remaining <= s
      invariant Ascending(keys)
      invariant forall x :: x in keys <==> x in s && x !in remaining
      decreases remaining
    {
      var k :| k in remaining;
      keys := InsertSorted(keys, k);
      remaining := remaining - {k};
    }
    AscendingUnique(keys, SortedKeys(s));
  }
}
