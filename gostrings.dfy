/**
 * The parts of Go's `strings` package and of string comparison that the
 * model relies on, for one-character separators.  Go strings are byte
 * strings; here a string is a `seq<char>` and every separator used by the
 * program ('\n', ' ', ':', '/') is a single ASCII character.
 */
module GoStrings {

  /** strings.Count(s, string(c)) */
  function Count(s: string, c: char): nat
  {
    if |s| == 0 then 0 else (if s[0] == c then 1 else 0) + Count(s[1..], c)
  }

  /** strings.Split(s, string(sep)): the pieces between separators, at least one. */
  function Split(s: string, sep: char): (parts: seq<string>)
    ensures |parts| == Count(s, sep) + 1
    ensures forall i :: 0 <= i < |parts| ==> sep !in parts[i]
    decreases |s|
  {
    if |s| == 0 then [""]
    else
      var rest := Split(s[1..], sep);
      if s[0] == sep then [""] + rest
      else [[s[0]] + rest[0]] + rest[1..]
  }

  /** strings.Join(parts, string(sep)) */
  function Join(parts: seq<string>, sep: char): string
  {
    if |parts| == 0 then ""
    else if |parts| == 1 then parts[0]
    else parts[0] + [sep] + Join(parts[1..], sep)
  }

  predicate NoSep(parts: seq<string>, sep: char)
  {
    forall i :: 0 <= i < |parts| ==> sep !in parts[i]
  }

  /** strings.HasPrefix */
  predicate HasPrefix(s: string, prefix: string)
  {
    |prefix| <= |s| && s[..|prefix|] == prefix
  }

  /** strings.HasSuffix */
  predicate HasSuffix(s: string, suffix: string)
  {
    |suffix| <= |s| && s[|s| - |suffix|..] == suffix
  }

  /** HasPrefix holds exactly when s is the prefix followed by something. */
  lemma PrefixIffConcat(s: string, prefix: string)
    ensures HasPrefix(s, prefix) <==> exists rest :: s == prefix + rest
  {
    if HasPrefix(s, prefix) {
      assert s == prefix + s[|prefix|..];
    }
    if exists rest :: s == prefix + rest {
      var rest :| s == prefix + rest;
      assert s[..|prefix|] == prefix;
    }
  }

  /** HasSuffix holds exactly when s is something followed by the suffix. */
  lemma SuffixIffConcat(s: string, suffix: string)
    ensures HasSuffix(s, suffix) <==> exists front :: s == front + suffix
  {
    if HasSuffix(s, suffix) {
      assert s == s[..|s| - |suffix|] + suffix;
    }
    if exists front :: s == front + suffix {
      var front :| s == front + suffix;
      assert s[|s| - |suffix|..] == suffix;
    }
  }

  /** strings.TrimSuffix: removes one occurrence of `suffix` at the end, if present. */
  function TrimSuffix(s: string, suffix: string): (r: string)
    ensures HasSuffix(s, suffix) ==> r + suffix == s
    ensures !HasSuffix(s, suffix) ==> r == s
  {
    if HasSuffix(s, suffix) then s[..|s| - |suffix|] else s
  }

  /** strings.TrimPrefix: removes one occurrence of `prefix` at the start, if present. */
  function TrimPrefix(s: string, prefix: string): (r: string)
    ensures HasPrefix(s, prefix) ==> prefix + r == s
    ensures !HasPrefix(s, prefix) ==> r == s
  {
    if HasPrefix(s, prefix) then s[|prefix|..] else s
  }

  /** A separator-free piece after the last separator is the last piece. */
  lemma {:induction false} SplitSnoc(a: string, sep: char, b: string)
    requires sep !in b
    ensures Split(a + [sep] + b, sep) == Split(a, sep) + [b]
    decreases |a|
  {
    var s := a + [sep] + b;
    if |a| == 0 {
      assert s == [] + [sep] + b;
      SplitCons([], sep, b);
      SplitWithoutSep(b, sep);
    } else {
      assert s[1..] == a[1..] + [sep] + b;
      SplitSnoc(a[1..], sep, b);
      assert a == [a[0]] + a[1..];
    }
  }

  lemma PrefixTrans(s: string, p: string, q: string)
    requires HasPrefix(s, p) && HasPrefix(p, q)
    ensures HasPrefix(s, q)
  {
    assert s[..|q|] == s[..|p|][..|q|];
  }

  lemma PrefixChars(s: string, p: string, c: char)
    requires HasPrefix(s, p) && c in p
    ensures c in s
  {
    var j :| 0 <= j < |p| && p[j] == c;
    assert s[j] == s[..|p|][j];
  }

  /** Splitting and joining again gives back the original string. */
  lemma {:induction false} JoinSplit(s: string, sep: char)
    ensures Join(Split(s, sep), sep) == s
    decreases |s|
  {
    if |s| > 0 {
      JoinSplit(s[1..], sep);
      var rest := Split(s[1..], sep);
      if s[0] == sep {
        assert s == [sep] + s[1..];
      } else if |rest| == 1 {
        assert s == [s[0]] + s[1..];
      } else {
        assert Join(rest, sep) == rest[0] + [sep] + Join(rest[1..], sep);
        assert s == [s[0]] + s[1..];
      }
    }
  }

  /** A string without the separator splits into itself. */
  lemma SplitWithoutSep(s: string, sep: char)
    requires sep !in s
    ensures Split(s, sep) == [s]
  {
    assert |Split(s, sep)| == Count(s, sep) + 1;
    CountAbsent(s, sep);
    JoinSplit(s, sep);
  }

  lemma {:induction false} CountAbsent(s: string, c: char)
    requires c !in s
    ensures Count(s, c) == 0
    decreases |s|
  {
    if |s| > 0 {
      assert c !in s[1..];
      CountAbsent(s[1..], c);
    }
  }

  lemma {:induction false} CountPresent(s: string, c: char)
    requires c in s
    ensures Count(s, c) >= 1
    decreases |s|
  {
    if s[0] != c {
      assert c in s[1..];
      CountPresent(s[1..], c);
    }
  }

  lemma {:induction false} CountConcat(a: string, b: string, c: char)
    ensures Count(a + b, c) == Count(a, c) + Count(b, c)
    decreases |a|
  {
    if |a| > 0 {
      assert (a + b)[1..] == a[1..] + b;
      CountConcat(a[1..], b, c);
    } else {
      assert a + b == b;
    }
  }

  /** One separator after a separator-free piece splits off exactly that piece. */
  lemma {:induction false} SplitCons(a: string, sep: char, b: string)
    requires sep !in a
    ensures Split(a + [sep] + b, sep) == [a] + Split(b, sep)
    decreases |a|
  {
    var s := a + [sep] + b;
    if |a| == 0 {
      assert s == [sep] + b;
      assert s[1..] == b;
    } else {
      assert s[1..] == a[1..] + [sep] + b;
      SplitCons(a[1..], sep, b);
      assert [a[0]] + a[1..] == a;
    }
  }

  /** Joining separator-free pieces and splitting again gives back the pieces. */
  lemma {:induction false} SplitJoin(parts: seq<string>, sep: char)
    requires |parts| >= 1 && NoSep(parts, sep)
    ensures Split(Join(parts, sep), sep) == parts
    decreases |parts|
  {
    if |parts| == 1 {
      SplitWithoutSep(parts[0], sep);
    } else {
      assert NoSep(parts[1..], sep) by {
        forall i | 0 <= i < |parts[1..]| ensures sep !in parts[1..][i] {
          assert parts[1..][i] == parts[i + 1];
        }
      }
      SplitJoin(parts[1..], sep);
      assert sep !in parts[0];
      SplitCons(parts[0], sep, Join(parts[1..], sep));
      assert [parts[0]] + parts[1..] == parts;
    }
  }

  /** The first piece and, when there are two, the first two pieces with the separator
      between them, start the string; the last piece ends it. */
  lemma {:induction false} JoinBounds(parts: seq<string>, sep: char)
    requires |parts| >= 1
    ensures HasPrefix(Join(parts, sep), parts[0])
    ensures |parts| >= 2 ==> HasPrefix(Join(parts, sep), parts[0] + [sep] + parts[1])
    ensures HasSuffix(Join(parts, sep), parts[|parts| - 1])
    decreases |parts|
  {
    if |parts| >= 2 {
      JoinBounds(parts[1..], sep);
      var j := Join(parts, sep);
      var rest := Join(parts[1..], sep);
      assert j == parts[0] + [sep] + rest;
      assert j[..|parts[0]|] == parts[0];
      assert HasPrefix(rest, parts[1]);
      assert j[..|parts[0]| + 1 + |parts[1]|] == parts[0] + [sep] + rest[..|parts[1]|];
      var last := parts[|parts| - 1];
      assert last == parts[1..][|parts[1..]| - 1];
      assert j[|j| - |last|..] == rest[|rest| - |last|..];
    }
  }

  /** A single piece joins to itself; with more, a separator follows the first piece and precedes the last. */
  lemma {:induction false} JoinSeparators(parts: seq<string>, sep: char)
    requires |parts| >= 1
    ensures |parts| == 1 ==> Join(parts, sep) == parts[0]
    ensures |parts| >= 2 ==> HasPrefix(Join(parts, sep), parts[0] + [sep])
    ensures |parts| >= 2 ==> HasSuffix(Join(parts, sep), [sep] + parts[|parts| - 1])
    decreases |parts|
  {
    if |parts| >= 2 {
      var j := Join(parts, sep);
      var rest := Join(parts[1..], sep);
      var last := parts[|parts| - 1];
      assert j == parts[0] + [sep] + rest;
      assert j[..|parts[0]| + 1] == parts[0] + [sep];
      if |parts| >= 3 {
        JoinSeparators(parts[1..], sep);
        assert last == parts[1..][|parts[1..]| - 1];
        assert j[|j| - |last| - 1..] == rest[|rest| - |last| - 1..];
      } else {
        assert rest == last;
        assert j[|j| - |last| - 1..] == [sep] + last;
      }
    }
  }

  /** The separators after the first piece of a split and before its last piece. */
  lemma SplitSeparators(s: string, sep: char)
    ensures var parts := Split(s, sep);
      (|parts| == 1 ==> parts[0] == s)
      && (|parts| >= 2 ==> HasPrefix(s, parts[0] + [sep]))
      && (|parts| >= 2 ==> HasSuffix(s, [sep] + parts[|parts| - 1]))
  {
    JoinSplit(s, sep);
    JoinSeparators(Split(s, sep), sep);
  }

  /** The position of the first c in s, or |s| when there is none (strings.IndexByte, with |s| for -1). */
  function FirstIndex(s: string, c: char): (i: nat)
    ensures i <= |s|
  {
    if |s| == 0 || s[0] == c then 0 else 1 + FirstIndex(s[1..], c)
  }

  /** FirstIndex passes over no c and stops at a c, which it finds exactly when s has one. */
  lemma {:induction false} FirstIndexSpec(s: string, c: char)
    ensures FirstIndex(s, c) == |s| || s[FirstIndex(s, c)] == c
    ensures forall k :: 0 <= k < FirstIndex(s, c) ==> s[k] != c
    ensures c in s <==> FirstIndex(s, c) < |s|
  {
    if |s| > 0 && s[0] != c {
      FirstIndexSpec(s[1..], c);
      forall k | 0 <= k < FirstIndex(s, c) ensures s[k] != c {
        if k > 0 {
          assert s[k] == s[1..][k - 1];
        }
      }
      assert c in s ==> c in s[1..] by {
        if c in s {
          var k :| 0 <= k < |s| && s[k] == c;
          assert s[1..][k - 1] == c;
        }
      }
    }
  }

  /** The first piece of a split is everything before the first separator. */
  lemma {:induction false} SplitFirst(s: string, sep: char)
    ensures Split(s, sep)[0] == s[..FirstIndex(s, sep)]
    decreases |s|
  {
    if |s| > 0 && s[0] != sep {
      SplitFirst(s[1..], sep);
      assert s[..FirstIndex(s, sep)] == [s[0]] + s[1..][..FirstIndex(s[1..], sep)];
    }
  }

  /** After the first piece, a split goes on as the split of what follows the first separator. */
  lemma {:induction false} SplitAfterFirst(s: string, sep: char)
    requires FirstIndex(s, sep) < |s|
    ensures Split(s, sep)[1..] == Split(s[FirstIndex(s, sep) + 1..], sep)
    decreases |s|
  {
    if s[0] != sep {
      SplitAfterFirst(s[1..], sep);
      assert s[1..][FirstIndex(s[1..], sep) + 1..] == s[FirstIndex(s, sep) + 1..];
    }
  }

  lemma SplitBounds(s: string, sep: char)
    ensures HasPrefix(s, Split(s, sep)[0])
    ensures |Split(s, sep)| >= 2 ==> HasPrefix(s, Split(s, sep)[0] + [sep] + Split(s, sep)[1])
    ensures HasSuffix(s, Split(s, sep)[|Split(s, sep)| - 1])
  {
    JoinSplit(s, sep);
    JoinBounds(Split(s, sep), sep);
  }

  /** The number of separators in a join is the number of gaps. */
  lemma {:induction false} CountJoin(parts: seq<string>, sep: char)
    requires |parts| >= 1 && NoSep(parts, sep)
    ensures Count(Join(parts, sep), sep) == |parts| - 1
  {
    SplitJoin(parts, sep);
  }

  /** Go's string order: lexicographic on characters, a proper prefix first. */
  predicate Less(a: string, b: string)
    decreases |a|
  {
    if |a| == 0 then |b| > 0
    else if |b| == 0 then false
    else a[0] < b[0] || (a[0] == b[0] && Less(a[1..], b[1..]))
  }

  lemma {:induction false} LessIrreflexive(a: string)
    ensures !Less(a, a)
    decreases |a|
  {
    if |a| > 0 { LessIrreflexive(a[1..]); }
  }

  lemma {:induction false} LessTransitive(a: string, b: string, c: string)
    requires Less(a, b) && Less(b, c)
    ensures Less(a, c)
    decreases |a|
  {
    if |a| > 0 && |b| > 0 && |c| > 0 && a[0] == b[0] && b[0] == c[0] {
      LessTransitive(a[1..], b[1..], c[1..]);
    }
  }

  lemma {:induction false} LessTotal(a: string, b: string)
    requires a != b
    ensures Less(a, b) || Less(b, a)
    decreases |a|
  {
    if |a| > 0 && |b| > 0 && a[0] == b[0] {
      assert a == [a[0]] + a[1..] && b == [b[0]] + b[1..];
      LessTotal(a[1..], b[1..]);
    }
  }

  lemma LessAsymmetric(a: string, b: string)
    requires Less(a, b)
    ensures !Less(b, a)
  {
    if Less(b, a) {
      LessTransitive(a, b, a);
      LessIrreflexive(a);
    }
  }
}
