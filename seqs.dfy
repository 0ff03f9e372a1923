/**
 * Tables are sequences of rows in insertion order. A `SELECT ... WHERE p`
 * is `Filter(table, p)`, a `DELETE ... WHERE p` keeps `Filter(table, Not(p))`,
 * and `fetchone()` is `First(table, p)`: the earliest matching row.
 */
module Seqs {
  import opened Wrappers

  function Not<T>(p: T -> bool): T -> bool
  {
    x => !p(x)
  }

  /** The elements of `s` that satisfy `p`, in the order of `s`. */
  function Filter<T>(s: seq<T>, p: T -> bool): (r: seq<T>)
    ensures |r| <= |s|
    ensures forall i :: 0 <= i < |r| ==> r[i] in s && p(r[i])
    ensures forall i :: 0 <= i < |s| && p(s[i]) ==> s[i] in r
  {
    if s == [] then []
    else
      var r0 := Filter(s[..|s| - 1], p);
      assert forall i :: 0 <= i < |s| - 1 ==> s[i] == s[..|s| - 1][i];
      if p(s[|s| - 1]) then r0 + [s[|s| - 1]] else r0
  }

  /** Applies `f` to every element, keeping the order. */
  function Map<T, U>(s: seq<T>, f: T -> U): (r: seq<U>)
    ensures |r| == |s|
    ensures forall i :: 0 <= i < |s| ==> r[i] == f(s[i])
  {
    if s == [] then [] else Map(s[..|s| - 1], f) + [f(s[|s| - 1])]
  }

  /** The earliest element of `s` satisfying `p`, if any. */
  function First<T>(s: seq<T>, p: T -> bool): (r: Option<T>)
    ensures r.None? <==> forall i :: 0 <= i < |s| ==> !p(s[i])
    ensures r.Some? ==> exists i :: 0 <= i < |s| && s[i] == r.value && p(s[i]) &&
                                    forall j :: 0 <= j < i ==> !p(s[j])
  {
    var m := Filter(s, p);
    if m == [] then
      assert forall i :: 0 <= i < |s| ==> !p(s[i]) by {
        forall i | 0 <= i < |s| ensures !p(s[i]) {
          assert s[i] in s;
        }
      }
      None
    else
      FilterHead(s, p);
      Some(m[0])
  }

  ghost predicate NoDuplicates<T>(s: seq<T>)
  {
    forall i, j :: 0 <= i < j < |s| ==> s[i] != s[j]
  }

  /** Filtering distributes over concatenation: the order of `s` is kept. */
  lemma {:induction false} FilterAppend<T>(a: seq<T>, b: seq<T>, p: T -> bool)
    ensures Filter(a + b, p) == Filter(a, p) + Filter(b, p)
  {
    if b == [] {
      assert a + b == a;
    } else {
      var b' := b[..|b| - 1];
      assert (a + b)[..|a + b| - 1] == a + b';
      FilterAppend(a, b', p);
    }
  }

  lemma FilterSingle<T>(x: T, p: T -> bool)
    ensures Filter([x], p) == if p(x) then [x] else []
  {
    assert [x][..0] == [];
  }

  /** The head of a non-empty filter is the earliest matching element. */
  lemma {:induction false} FilterHead<T>(s: seq<T>, p: T -> bool)
    requires Filter(s, p) != []
    ensures exists i :: 0 <= i < |s| && p(s[i]) && Filter(s, p)[0] == s[i] &&
                        forall j :: 0 <= j < i ==> !p(s[j])
  {
    assert s == [s[0]] + s[1..];
    FilterAppend([s[0]], s[1..], p);
    FilterSingle(s[0], p);
    if p(s[0]) {
      assert p(s[0]) && Filter(s, p)[0] == s[0];
    } else {
      FilterHead(s[1..], p);
      var k :| 0 <= k < |s[1..]| && p(s[1..][k]) && Filter(s[1..], p)[0] == s[1..][k] &&
               forall j :: 0 <= j < k ==> !p(s[1..][j]);
      assert forall j :: 0 <= j < k + 1 ==> !p(s[j]) by {
        forall j | 0 <= j < k + 1 ensures !p(s[j]) {
          if j > 0 { assert s[j] == s[1..][j - 1]; }
        }
      }
      assert p(s[k + 1]) && Filter(s, p)[0] == s[k + 1];
    }
  }

  /** A filter holds at least two elements exactly when two positions of `s` match. */
  lemma {:induction false} FilterHasTwo<T>(s: seq<T>, p: T -> bool)
    ensures |Filter(s, p)| >= 2 <==> exists i, j :: 0 <= i < j < |s| && p(s[i]) && p(s[j])
  {
    if s != [] {
      var s' := s[..|s| - 1];
      var last := |s| - 1;
      FilterHasTwo(s', p);
      if |Filter(s, p)| >= 2 {
        if !p(s[last]) || |Filter(s', p)| >= 2 {
          var i, j :| 0 <= i < j < |s'| && p(s'[i]) && p(s'[j]);
          assert p(s[i]) && p(s[j]);
        } else {
          var m := Filter(s', p);
          assert |m| == 1 && m[0] in s';
          var i :| 0 <= i < |s'| && s'[i] == m[0];
          assert p(s[i]) && p(s[last]) && i < last;
        }
      }
      if exists i, j :: 0 <= i < j < |s| && p(s[i]) && p(s[j]) {
        var i, j :| 0 <= i < j < |s| && p(s[i]) && p(s[j]);
        if j < last {
          assert p(s'[i]) && p(s'[j]);
        } else {
          assert s'[i] in Filter(s', p);
        }
      }
    }
  }

}
