/** The order in which a DynamoDB query returns a partition: ascending by the
    string sort key. DynamoDB compares strings by their UTF-8 bytes, which is
    the order of their code points, character by character. */
module Order {
  import opened Seqs

  /** `a` sorts no later than `b`: the first differing character decides, and
      a prefix comes first. */
  predicate LexLe(a: string, b: string)
    decreases |a|
  {
    a == [] || (b != [] && (a[0] < b[0] || (a[0] == b[0] && LexLe(a[1..], b[1..]))))
  }

  lemma {:induction false} LexLeRefl(a: string)
    ensures LexLe(a, a)
    decreases |a|
  {
    if a != [] {
      LexLeRefl(a[1..]);
    }
  }

  /** Any two strings are ordered one way or the other. */
  lemma {:induction false} LexLeTotal(a: string, b: string)
    ensures LexLe(a, b) || LexLe(b, a)
    decreases |a|
  {
    if a != [] && b != [] && a[0] == b[0] {
      LexLeTotal(a[1..], b[1..]);
    }
  }

  lemma {:induction false} LexLeTrans(a: string, b: string, c: string)
    requires LexLe(a, b) && LexLe(b, c)
    ensures LexLe(a, c)
    decreases |a|
  {
    if a != [] && a[0] == b[0] && b[0] == c[0] {
      LexLeTrans(a[1..], b[1..], c[1..]);
    }
  }

  /** Each element's key sorts no later than the next one's. */
  ghost predicate SortedBy<T>(s: seq<T>, key: T -> string) {
    forall i :: 0 < i < |s| ==> LexLe(key(s[i - 1]), key(s[i]))
  }

  /** `x` inserted into the sorted `s` before the first element whose key it
      does not follow. */
  function InsertBy<T(!new)>(x: T, s: seq<T>, key: T -> string): (r: seq<T>)
    requires SortedBy(s, key)
    ensures |r| == |s| + 1 && forall y :: y in r <==> y == x || y in s
    ensures SortedBy(r, key)
    decreases |s|
  {
    if s == [] || LexLe(key(x), key(s[0])) then [x] + s
    else
      LexLeTotal(key(x), key(s[0]));
      assert SortedBy(s[1..], key) by {
        forall i | 0 < i < |s[1..]| ensures LexLe(key(s[1..][i - 1]), key(s[1..][i])) {
          assert s[1..][i - 1] == s[i] && s[1..][i] == s[i + 1];
        }
      }
      var rest := InsertBy(x, s[1..], key);
      assert s == [s[0]] + s[1..];
      assert |s| > 1 ==> LexLe(key(s[0]), key(s[1]));
      [s[0]] + rest
  }

  /** The elements of `s` in ascending key order: the order a query returns
      them in when the keys are distinct. */
  function SortBy<T(!new)>(s: seq<T>, key: T -> string): (r: seq<T>)
    ensures |r| == |s| && forall y :: y in r <==> y in s
    ensures SortedBy(r, key)
    decreases |s|
  {
    if s == [] then []
    else
      assert s == [s[0]] + s[1..];
      InsertBy(s[0], SortBy(s[1..], key), key)
  }

  /** The first element of a sorted sequence has the least key. */
  lemma {:induction false} SortedFirstLeast<T>(s: seq<T>, key: T -> string, i: nat)
    requires SortedBy(s, key) && i < |s|
    ensures LexLe(key(s[0]), key(s[i]))
    decreases i
  {
    if i == 0 {
      LexLeRefl(key(s[0]));
    } else {
      SortedFirstLeast(s, key, i - 1);
      LexLeTrans(key(s[0]), key(s[i - 1]), key(s[i]));
    }
  }

  /** The tail of a sorted sequence is sorted. */
  lemma SortedTail<T>(s: seq<T>, key: T -> string)
    requires SortedBy(s, key) && s != []
    ensures SortedBy(s[1..], key)
  {
    var t := s[1..];
    forall i | 0 < i < |t| ensures LexLe(key(t[i - 1]), key(t[i])) {
      assert t[i - 1] == s[i] && t[i] == s[i + 1];
    }
  }

  /** Filtering a sorted sequence leaves it sorted. */
  lemma {:induction false} FilterSorted<T(!new)>(s: seq<T>, key: T -> string, p: T -> bool)
    requires SortedBy(s, key)
    ensures SortedBy(Filter(s, p), key)
    decreases |s|
  {
    if s != [] {
      var t := s[1..];
      SortedTail(s, key);
      FilterSorted(t, key, p);
      var f := Filter(t, p);
      if p(s[0]) && f != [] {
        assert f[0] in t;
        var k :| 0 <= k < |t| && t[k] == f[0];
        SortedFirstLeast(s, key, k + 1);
        var r := [s[0]] + f;
        assert Filter(s, p) == r;
        forall i | 0 < i < |r| ensures LexLe(key(r[i - 1]), key(r[i])) {
          if i > 1 {
            assert r[i - 1] == f[i - 2] && r[i] == f[i - 1];
          }
        }
      }
    }
  }
}
