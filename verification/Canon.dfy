/**
  * Canonical sets of strings: the one order in which the log writes every list of ids, so that a record never
  * depends on the order in which a set was read.
  */
module Canon {
  type Str = string

  /** The order JavaScript's `<` and `sort()` give strings (characters stand for code units). */
  predicate Less(a: Str, b: Str)
    decreases |b|
  {
    |b| > 0 && (|a| == 0 || a[0] < b[0] || (a[0] == b[0] && Less(a[1..], b[1..])))
  }

  lemma {:induction false} LessIrreflexive(a: Str)
    ensures !Less(a, a)
    decreases |a|
  {
    if |a| > 0 { LessIrreflexive(a[1..]); }
  }

  lemma {:induction false} LessTransitive(a: Str, b: Str, c: Str)
    requires Less(a, b) && Less(b, c)
    ensures Less(a, c)
    decreases |a|
  {
    if |a| > 0 && a[0] == b[0] && b[0] == c[0] { LessTransitive(a[1..], b[1..], c[1..]); }
  }

  lemma {:induction false} LessTotal(a: Str, b: Str)
    ensures Less(a, b) || a == b || Less(b, a)
    decreases |a|
  {
    if |a| > 0 && |b| > 0 && a[0] == b[0] {
      LessTotal(a[1..], b[1..]);
      assert a == [a[0]] + a[1..] && b == [b[0]] + b[1..];
    }
  }

  /** Unique and sorted: what the log's closed schema calls a canonical set. */
  predicate Ascending(s: seq<Str>)
  {
    forall i, j :: 0 <= i < j < |s| ==> Less(s[i], s[j])
  }

  /** The schema checks neighbours only; the order is transitive, so that is enough. */
  lemma {:induction false} NeighboursSuffice(s: seq<Str>)
    requires forall k :: 1 <= k < |s| ==> Less(s[k - 1], s[k])
    ensures Ascending(s)
  {
    if |s| > 1 {
      var p := s[..|s| - 1];
      NeighboursSuffice(p);
      forall i | 0 <= i < |s| - 1 ensures Less(s[i], s[|s| - 1])
      {
        if i < |s| - 2 {
          assert Less(p[i], p[|s| - 2]);
          LessTransitive(s[i], s[|s| - 2], s[|s| - 1]);
        }
      }
      forall i, j | 0 <= i < j < |s| ensures Less(s[i], s[j])
      {
        if j < |s| - 1 { assert Less(p[i], p[j]); }
      }
    }
  }

  function Elems<T>(s: seq<T>): set<T>
  {
    set x | x in s
  }

  predicate IsLeast(m: Str, s: set<Str>)
  {
    m in s && forall x :: x in s && x != m ==> Less(m, x)
  }

  lemma {:induction false} HasLeast(s: set<Str>)
    requires s != {}
    ensures exists m :: IsLeast(m, s)
  {
    var p :| p in s;
    var rest := s - {p};
    if rest == {} {
      assert forall x :: x in s ==> x == p || x in rest;
      assert IsLeast(p, s);
    } else {
      HasLeast(rest);
      var m :| IsLeast(m, rest);
      LessTotal(m, p);
      if Less(p, m) {
        forall x | x in s && x != p ensures Less(p, x)
        {
          assert x in rest;
          if x != m { LessTransitive(p, m, x); }
        }
        assert IsLeast(p, s);
      } else {
        assert IsLeast(m, s);
      }
    }
  }

  lemma LeastUnique(s: set<Str>, a: Str, b: Str)
    requires IsLeast(a, s) && IsLeast(b, s)
    ensures a == b
  {
    if a != b {
      LessTransitive(a, b, a);
      LessIrreflexive(a);
    }
  }

  function Least(s: set<Str>): (m: Str)
    requires s != {}
    ensures IsLeast(m, s)
  {
    HasLeast(s);
    assert forall a, b :: a in s && b in s && IsLeast(a, s) && IsLeast(b, s) ==> a == b by {
      forall a, b | IsLeast(a, s) && IsLeast(b, s) ensures a == b { LeastUnique(s, a, b); }
    }
    var m :| m in s && IsLeast(m, s);
    m
  }

  /** The members of `s`, each once, in order. */
  function SortedSet(s: set<Str>): (r: seq<Str>)
    ensures Ascending(r) && |r| == |s|
    ensures forall x :: x in r <==> x in s
  {
    if s == {} then []
    else
      var m := Least(s);
      [m] + SortedSet(s - {m})
  }

  lemma AscendingDistinct(s: seq<Str>)
    requires Ascending(s)
    ensures forall i, j :: 0 <= i < j < |s| ==> s[i] != s[j]
  {
    forall i, j | 0 <= i < j < |s| ensures s[i] != s[j] { LessIrreflexive(s[i]); }
  }

  /** The canonical form is unique: two ascending lists with the same members are the same list. */
  lemma {:induction false} AscendingUnique(a: seq<Str>, b: seq<Str>)
    requires Ascending(a) && Ascending(b)
    requires forall x :: x in a <==> x in b
    ensures a == b
    decreases |a|
  {
    assert |a| > 0 ==> a[0] in a;
    assert |b| > 0 ==> b[0] in b;
    if |a| > 0 && |b| > 0 {
      assert a[0] in b && b[0] in a;
      AscendingDistinct(a);
      AscendingDistinct(b);
      if a[0] != b[0] {
        assert Less(a[0], b[0]) && Less(b[0], a[0]);
        LessTransitive(a[0], b[0], a[0]);
        LessIrreflexive(a[0]);
      }
      assert forall x :: x in a[1..] <==> x in a && x != a[0];
      assert forall x :: x in b[1..] <==> x in b && x != b[0];
      AscendingUnique(a[1..], b[1..]);
      assert a == [a[0]] + a[1..] && b == [b[0]] + b[1..];
    }
  }

  lemma AscendingPart(s: seq<Str>, lo: nat, hi: nat)
    requires Ascending(s) && lo <= hi <= |s|
    ensures Ascending(s[lo..hi])
  {
  }

  lemma SubsetSize(s: set<Str>, t: set<Str>)
    requires s <= t
    ensures |s| <= |t|
  {
    assert t == s + (t - s);
  }
}
