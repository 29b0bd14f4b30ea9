/** Stock types and facts about sequences shared by the other modules.
    Sequences are consumed from the right, the way the modelled loops build their results. */
module Seqs {

  datatype Option<+T> = None | Some(value: T) {
    function GetOr(default: T): T {
      match this case Some(v) => v case None => default
    }
  }

  datatype Result<+T, +E> = Ok(value: T) | Err(error: E)

  predicate NoDup<T(==)>(s: seq<T>) {
    forall i, j :: 0 <= i < j < |s| ==> s[i] != s[j]
  }

  function Elems<T>(s: seq<T>): set<T> {
    set x | x in s
  }

  function Init<T>(s: seq<T>): (r: seq<T>)
    requires s != []
    ensures |r| == |s| - 1
  {
    s[..|s| - 1]
  }

  function Last<T>(s: seq<T>): T
    requires s != []
  {
    s[|s| - 1]
  }

  /** The elements of `s` that lie in `keep`, in order. */
  function Keep<T(==,!new)>(s: seq<T>, keep: set<T>): (r: seq<T>)
    ensures forall x :: x in r <==> x in s && x in keep
  {
    if s == [] then []
    else
      assert s == Init(s) + [Last(s)];
      Keep(Init(s), keep) + (if Last(s) in keep then [Last(s)] else [])
  }

  /** The elements of `s` that do not lie in `drop`, in order. */
  function Without<T(==,!new)>(s: seq<T>, drop: set<T>): (r: seq<T>)
    ensures forall x :: x in r <==> x in s && x !in drop
  {
    if s == [] then []
    else
      assert s == Init(s) + [Last(s)];
      Without(Init(s), drop) + (if Last(s) in drop then [] else [Last(s)])
  }

  /** The first position of `x`, or -1. */
  function IndexOf<T(==)>(s: seq<T>, x: T): (i: int)
    ensures x !in s ==> i == -1
    ensures x in s ==> 0 <= i < |s| && s[i] == x && x !in s[..i]
  {
    if x !in s then -1
    else if x in Init(s) then assert s == Init(s) + [Last(s)]; var i := IndexOf(Init(s), x); assert Init(s)[..i] == s[..i]; i
    else assert s == Init(s) + [Last(s)]; |s| - 1
  }

  lemma FirstIndex<T>(s: seq<T>, x: T, i: nat)
    requires i < |s| && s[i] == x && x !in s[..i]
    ensures IndexOf(s, x) == i
  {
    var k := IndexOf(s, x);
    assert forall m :: 0 <= m < k ==> s[m] == s[..k][m] && s[m] != x;
    assert forall m :: 0 <= m < i ==> s[m] == s[..i][m] && s[m] != x;
  }

  /** The first position whose element satisfies `p`, or -1. */
  function FirstAt<T>(s: seq<T>, p: T -> bool): (i: int)
    ensures -1 <= i < |s|
    ensures i >= 0 ==> p(s[i])
    ensures forall k :: 0 <= k < |s| && (i < 0 || k < i) ==> !p(s[k])
  {
    if s == [] then -1
    else
      var i := FirstAt(Init(s), p);
      if i >= 0 then i else if p(Last(s)) then |s| - 1 else -1
  }

  /** Any element: Go visits maps in no particular order. */
  method Any<T>(s: set<T>) returns (x: T)
    requires s != {}
    ensures x in s
  {
    x :| x in s;
  }

  /** Some occurrence of `x` precedes some occurrence of `y`. */
  predicate Before<T(==)>(s: seq<T>, x: T, y: T) {
    exists i, j :: 0 <= i < j < |s| && s[i] == x && s[j] == y
  }

  lemma NoDupSnoc<T(!new)>(s: seq<T>, x: T)
    ensures NoDup(s + [x]) <==> NoDup(s) && x !in s
  {
    var r := s + [x];
    if NoDup(r) {
      assert forall i :: 0 <= i < |s| ==> s[i] == r[i] && r[i] != r[|s|];
    }
  }

  lemma NoDupConcat<T(!new)>(s: seq<T>, t: seq<T>)
    requires NoDup(s) && NoDup(t) && forall x :: x in s ==> x !in t
    ensures NoDup(s + t)
  {
    forall i, j | 0 <= i < j < |s + t| ensures (s + t)[i] != (s + t)[j] {
      if i < |s| <= j {
        assert s[i] in s && t[j - |s|] in t;
      }
    }
  }

  lemma Exhausted<T(!new)>(s: seq<T>)
    ensures (forall x :: x !in s) ==> s == []
  {
    if s != [] {
      assert s[0] in s;
    }
  }

  lemma OnlyOne<T(!new)>(s: seq<T>, x: T)
    requires NoDup(s) && x in s && forall y :: y in s ==> y == x
    ensures s == [x]
  {
    assert s[0] in s;
    if |s| > 1 {
      assert s[0] == s[1] by { assert s[1] in s; }
    }
  }

  lemma {:induction false} NoDupSize<T(!new)>(s: seq<T>)
    requires NoDup(s)
    ensures |Elems(s)| == |s|
  {
    if s != [] {
      assert s == Init(s) + [Last(s)];
      NoDupSize(Init(s));
      assert Elems(s) == Elems(Init(s)) + {Last(s)};
    }
  }

  lemma {:induction false} KeepNoDup<T(!new)>(s: seq<T>, keep: set<T>)
    requires NoDup(s)
    ensures NoDup(Keep(s, keep))
  {
    if s != [] {
      KeepNoDup(Init(s), keep);
    }
  }

  lemma {:induction false} WithoutNoDup<T(!new)>(s: seq<T>, drop: set<T>)
    requires NoDup(s)
    ensures NoDup(Without(s, drop))
  {
    if s != [] {
      WithoutNoDup(Init(s), drop);
    }
  }

  lemma {:induction false} KeepAll<T(!new)>(s: seq<T>, keep: set<T>)
    requires forall x :: x in s ==> x in keep
    ensures Keep(s, keep) == s
  {
    if s != [] {
      assert s == Init(s) + [Last(s)];
      KeepAll(Init(s), keep);
    }
  }

  lemma {:induction false} WithoutNone<T(!new)>(s: seq<T>, drop: set<T>)
    requires forall x :: x in s ==> x !in drop
    ensures Without(s, drop) == s
  {
    if s != [] {
      assert s == Init(s) + [Last(s)];
      WithoutNone(Init(s), drop);
    }
  }

  /** Only the membership of the listed elements matters. */
  lemma {:induction false} KeepCong<T(!new)>(s: seq<T>, k: set<T>, k': set<T>)
    requires forall x :: x in s ==> (x in k <==> x in k')
    ensures Keep(s, k) == Keep(s, k')
  {
    if s != [] {
      assert s == Init(s) + [Last(s)];
      KeepCong(Init(s), k, k');
    }
  }

  lemma {:induction false} WithoutCong<T(!new)>(s: seq<T>, d: set<T>, d': set<T>)
    requires forall x :: x in s ==> (x in d <==> x in d')
    ensures Without(s, d) == Without(s, d')
  {
    if s != [] {
      assert s == Init(s) + [Last(s)];
      WithoutCong(Init(s), d, d');
    }
  }

  lemma KeepSnoc<T(!new)>(s: seq<T>, x: T, keep: set<T>)
    ensures Keep(s + [x], keep) == Keep(s, keep) + (if x in keep then [x] else [])
  {
    assert Init(s + [x]) == s;
  }

  lemma {:induction false} KeepTwice<T(!new)>(s: seq<T>, k: set<T>, l: set<T>)
    ensures Keep(Keep(s, k), l) == Keep(s, k * l)
  {
    if s != [] {
      var t, x := Keep(Init(s), k), Last(s);
      KeepTwice(Init(s), k, l);
      if x in k {
        assert Keep(s, k) == t + [x];
        KeepSnoc(t, x, l);
      } else {
        assert Keep(s, k) == t;
      }
    }
  }

  lemma {:induction false} KeepWithout<T(!new)>(s: seq<T>, drop: set<T>, keep: set<T>)
    requires forall x :: x in drop ==> x !in keep
    ensures Keep(Without(s, drop), keep) == Keep(s, keep)
  {
    if s != [] {
      var t, x := Init(s), Last(s);
      var w := Without(t, drop);
      KeepWithout(t, drop, keep);
      if x in drop {
        assert Without(s, drop) == w;
        assert Keep(s, keep) == Keep(t, keep);
      } else {
        assert Without(s, drop) == w + [x];
        KeepSnoc(w, x, keep);
      }
    }
  }

  /** Dropping elements keeps the relative order of the others. */
  lemma {:induction false} KeepBefore<T(!new)>(s: seq<T>, keep: set<T>, x: T, y: T)
    requires Before(s, x, y) && x in keep && y in keep
    ensures Before(Keep(s, keep), x, y)
  {
    var i, j :| 0 <= i < j < |s| && s[i] == x && s[j] == y;
    var k := Keep(Init(s), keep);
    if j == |s| - 1 {
      assert Init(s)[i] == x;
      var a :| 0 <= a < |k| && k[a] == x;
      assert Keep(s, keep)[a] == x && Keep(s, keep)[|k|] == y;
    } else {
      assert Init(s)[i] == x && Init(s)[j] == y;
      KeepBefore(Init(s), keep, x, y);
      var a, b :| 0 <= a < b < |k| && k[a] == x && k[b] == y;
      assert Keep(s, keep)[a] == x && Keep(s, keep)[b] == y;
    }
  }

  /** ... and makes up no order that was not there. */
  lemma {:induction false} BeforeInKeep<T(!new)>(s: seq<T>, keep: set<T>, x: T, y: T)
    requires Before(Keep(s, keep), x, y)
    ensures Before(s, x, y)
  {
    var k := Keep(Init(s), keep);
    var i, j :| 0 <= i < j < |Keep(s, keep)| && Keep(s, keep)[i] == x && Keep(s, keep)[j] == y;
    assert s == Init(s) + [Last(s)];
    if j < |k| {
      assert k[i] == x && k[j] == y;
      BeforeInKeep(Init(s), keep, x, y);
      BeforeAppend(Init(s), [Last(s)], x, y);
    } else {
      assert k[i] == x && x in Init(s) && y == Last(s);
      BeforeAppend(Init(s), [Last(s)], x, y);
    }
  }

  lemma BeforeAppend<T(!new)>(s: seq<T>, t: seq<T>, x: T, y: T)
    requires Before(s, x, y) || (x in s && y in t)
    ensures Before(s + t, x, y)
  {
    if Before(s, x, y) {
      var i, j :| 0 <= i < j < |s| && s[i] == x && s[j] == y;
      assert (s + t)[i] == x && (s + t)[j] == y;
    } else {
      var i :| 0 <= i < |s| && s[i] == x;
      var j :| 0 <= j < |t| && t[j] == y;
      assert (s + t)[i] == x && (s + t)[|s| + j] == y;
    }
  }
}
