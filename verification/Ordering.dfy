/** The order of strings by character, and sorted lists of strings. */
module Ordering {

  predicate Less(a: string, b: string) {
    b != "" && (a == "" || a[0] < b[0] || (a[0] == b[0] && Less(a[1..], b[1..])))
  }

  /** The strings agree up to a place where the first one ends or has the smaller character. */
  lemma {:induction false} LessByFirstDifference(a: string, b: string)
    ensures Less(a, b) <==> exists k :: DiffersAt(a, b, k)
    decreases |a|
  {
    if a == "" || b == "" || a[0] != b[0] {
      if b != "" && (a == "" || a[0] < b[0]) {
        assert DiffersAt(a, b, 0);
      }
      if k :| DiffersAt(a, b, k) {
        FirstAgrees(a, b, k);
      }
    } else {
      LessByFirstDifference(a[1..], b[1..]);
      if k :| DiffersAt(a[1..], b[1..], k) {
        assert a[..k + 1] == [a[0]] + a[1..][..k] && b[..k + 1] == [b[0]] + b[1..][..k];
        assert DiffersAt(a, b, k + 1);
      }
      if k :| DiffersAt(a, b, k) {
        FirstAgrees(a, b, k);
        assert a[1..][..k - 1] == a[..k][1..] && b[1..][..k - 1] == b[..k][1..];
        assert DiffersAt(a[1..], b[1..], k - 1);
      }
    }
  }

  predicate DiffersAt(a: string, b: string, k: int) {
    && 0 <= k <= |a| && k < |b| && a[..k] == b[..k]
    && (k == |a| || a[k] < b[k])
  }

  lemma FirstAgrees(a: string, b: string, k: int)
    requires DiffersAt(a, b, k)
    ensures if k > 0 then a != "" && b != "" && a[0] == b[0] else b != "" && (a == "" || a[0] < b[0])
  {
    if k > 0 {
      assert a[..k][0] == b[..k][0];
    }
  }

  lemma LessIsTotal(a: string, b: string)
    ensures a == b || Less(a, b) || Less(b, a)
    ensures !(Less(a, b) && Less(b, a)) && !Less(a, a)
  {
    if a != "" && b != "" && a[0] == b[0] {
      assert a == [a[0]] + a[1..] && b == [b[0]] + b[1..];
      LessIsTotal(a[1..], b[1..]);
    }
    if a != "" {
      LessIsTotal(a[1..], a[1..]);
    }
  }

  lemma LessIsTransitive(a: string, b: string, c: string)
    requires Less(a, b) && Less(b, c)
    ensures Less(a, c)
  {
    if a != "" && a[0] == b[0] == c[0] {
      LessIsTransitive(a[1..], b[1..], c[1..]);
    }
  }

  ghost predicate Ascending(s: seq<string>) {
    forall i, j :: 0 <= i < j < |s| ==> Less(s[i], s[j])
  }

  lemma FirstIsNotLater(s: seq<string>)
    requires Ascending(s) && s != []
    ensures s[0] !in s[1..] && forall x :: x in s <==> x == s[0] || x in s[1..]
  {
    LessIsTotal(s[0], s[0]);
    assert s == [s[0]] + s[1..];
    assert forall i :: 0 <= i < |s[1..]| ==> Less(s[0], s[1..][i]);
  }

  /** A set of strings has one sorted listing. */
  lemma {:induction false} AscendingIsUnique(s: seq<string>, t: seq<string>)
    requires Ascending(s) && Ascending(t)
    requires forall x :: x in s <==> x in t
    ensures s == t
    decreases |s|
  {
    assert s == [] || s[0] in t;
    assert t == [] || t[0] in s;
    if s != [] {
      LessIsTotal(s[0], t[0]);
      assert s[0] == t[0];
      FirstIsNotLater(s);
      FirstIsNotLater(t);
      assert forall x :: x in s[1..] <==> x in s && x != s[0];
      AscendingIsUnique(s[1..], t[1..]);
      assert s == [s[0]] + s[1..] && t == [t[0]] + t[1..];
    }
  }

  /** The least element of a non-empty set. */
  method Least(ids: set<string>) returns (least: string)
    requires ids != {}
    ensures least in ids && forall x :: x in ids && x != least ==> Less(least, x)
  {
    least :| least in ids;
    var remaining := ids - {least};
    while remaining != {}
      invariant remaining <= ids && least in ids && least !in remaining
      invariant forall x :: x in ids && x !in remaining && x != least ==> Less(least, x)
    {
      var x :| x in remaining;
      remaining := remaining - {x};
      LessIsTotal(x, least);
      if Less(x, least) {
        forall y | y in ids && y !in remaining && y != x
          ensures Less(x, y)
        {
          if y != least { LessIsTransitive(x, least, y); }
        }
        least := x;
      }
    }
  }

  /** The sorted listing of a set. */
  method Sorted(ids: set<string>) returns (s: seq<string>)
    ensures Ascending(s) && forall x :: x in s <==> x in ids
  {
    s := [];
    var remaining := ids;
    while remaining != {}
      invariant remaining <= ids && Ascending(s)
      invariant forall x :: x in s <==> x in ids && x !in remaining
      invariant forall x, y :: x in s && y in remaining ==> Less(x, y)
    {
      var least := Least(remaining);
      s := s + [least];
      remaining := remaining - {least};
    }
  }
}
