/** Sets of row ids, listed in ascending order. */
module OrderedIds {

  lemma Pick<T>(s: set<T>) returns (x: T)
    requires s != {}
    ensures x in s
  {
    x :| x in s;
  }

  lemma {:induction false} MaxExists(s: set<int>)
    requires s != {}
    ensures exists m :: m in s && forall i :: i in s ==> i <= m
    decreases |s|
  {
    var x := Pick(s);
    var rest := s - {x};
    if rest != {} {
      MaxExists(rest);
      var y :| y in rest && forall i :: i in rest ==> i <= y;
      var m := if x > y then x else y;
      forall i | i in s ensures i <= m {
        assert i == x || i in rest;
      }
      assert m in s;
    } else {
      forall i | i in s ensures i <= x {
        assert i == x || i in rest;
      }
    }
  }

  function Max(s: set<int>): (m: int)
    requires s != {}
    ensures m in s && forall i :: i in s ==> i <= m
  {
    MaxExists(s);
    var m :| m in s && forall i :: i in s ==> i <= m;
    m
  }

  ghost predicate Distinct(ids: seq<int>)
  {
    forall a, b :: 0 <= a < b < |ids| ==> ids[a] != ids[b]
  }

  /** The members of a set, in ascending order. */
  function Ascending(s: set<int>): (ids: seq<int>)
    ensures forall i :: i in ids <==> i in s
    ensures Distinct(ids)
    decreases |s|
  {
    if s == {} then [] else Ascending(s - {Max(s)}) + [Max(s)]
  }

  lemma AscendingLast(s: set<int>, m: int)
    requires m in s && forall i :: i in s ==> i <= m
    ensures s != {} && Ascending(s) == Ascending(s - {m}) + [m]
  {
    assert Max(s) == m;
  }

  /** ids without those in e. */
  ghost function Without(ids: seq<int>, e: set<int>): (r: seq<int>)
    ensures forall i :: i in r <==> i in ids && i !in e
  {
    if ids == [] then []
    else
      var n := |ids| - 1;
      assert ids == ids[..n] + [ids[n]];
      Without(ids[..n], e) + (if ids[n] in e then [] else [ids[n]])
  }

  lemma WithoutLonger(ids: seq<int>, i: int, e: set<int>)
    ensures Without(ids + [i], e) == Without(ids, e) + (if i in e then [] else [i])
  {
    assert (ids + [i])[..|ids|] == ids;
  }

  lemma {:induction false} AscendingWithout(s: set<int>, e: set<int>)
    ensures Without(Ascending(s), e) == Ascending(s - e)
    decreases |s|
  {
    if s != {} {
      var m := Max(s);
      AscendingWithout(s - {m}, e);
      WithoutLonger(Ascending(s - {m}), m, e);
      if m in e {
        assert s - e == (s - {m}) - e;
      } else {
        assert (s - e) - {m} == (s - {m}) - e;
        AscendingLast(s - e, m);
      }
    } else {
      assert s - e == s;
    }
  }

  /** The members of ids that are in e. */
  ghost function Among(ids: seq<int>, e: set<int>): set<int>
  {
    set i | i in ids && i in e
  }

  lemma AmongLonger(ids: seq<int>, i: int, e: set<int>)
    ensures Among(ids + [i], e) == Among(ids, e) + if i in e then {i} else {}
  {
  }

  lemma AmongAll(ids: seq<int>, e: set<int>)
    requires forall i :: i in e ==> i in ids
    ensures Among(ids, e) == e
  {
    assert forall i :: i in Among(ids, e) <==> i in e;
  }

  ghost function Elements(ids: seq<int>): set<int>
  {
    set i | i in ids
  }

  lemma ElementsLonger(ids: seq<int>, i: int)
    ensures Elements(ids + [i]) == Elements(ids) + {i}
  {
  }
}
