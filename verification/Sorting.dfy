/** A stable sort by a comparison, and what its users rely on. */
module Sorting {

  ghost predicate TotalPreorder<T(!new)>(le: (T, T) -> bool)
  {
    && (forall x, y :: le(x, y) || le(y, x))
    && (forall x, y, z :: le(x, y) && le(y, z) ==> le(x, z))
  }

  ghost predicate SortedBy<T>(s: seq<T>, le: (T, T) -> bool)
  {
    forall i, j :: 0 <= i < j < |s| ==> le(s[i], s[j])
  }

  /** x put before the first element that it does not have to follow. */
  function Insert<T>(x: T, s: seq<T>, le: (T, T) -> bool): (r: seq<T>)
    ensures multiset(r) == multiset(s) + multiset{x}
  {
    if s == [] then
      [x]
    else if le(x, s[0]) then
      assert [x] + s == [x] + s;
      [x] + s
    else
      assert s == [s[0]] + s[1..];
      [s[0]] + Insert(x, s[1..], le)
  }

  /** The stable sort: equal elements keep their order, since each is put before those it came before. */
  function Sorted<T>(s: seq<T>, le: (T, T) -> bool): (r: seq<T>)
    ensures multiset(r) == multiset(s) && |r| == |s|
  {
    if s == [] then
      []
    else
      assert s == [s[0]] + s[1..];
      var r := Insert(s[0], Sorted(s[1..], le), le);
      assert |multiset(r)| == |r| && |multiset(s)| == |s|;
      r
  }

  lemma {:induction false} InsertSorted<T(!new)>(x: T, s: seq<T>, le: (T, T) -> bool)
    requires TotalPreorder(le) && SortedBy(s, le)
    ensures SortedBy(Insert(x, s, le), le)
  {
    if s != [] && !le(x, s[0]) {
      var rest := Insert(x, s[1..], le);
      InsertSorted(x, s[1..], le);
      forall i | 0 <= i < |rest| ensures le(s[0], rest[i]) {
        assert rest[i] in multiset(rest);
        assert rest[i] == x || rest[i] in s[1..];
      }
    }
  }

  lemma {:induction false} SortedIsSorted<T(!new)>(s: seq<T>, le: (T, T) -> bool)
    requires TotalPreorder(le)
    ensures SortedBy(Sorted(s, le), le)
  {
    if s != [] {
      SortedIsSorted(s[1..], le);
      InsertSorted(s[0], Sorted(s[1..], le), le);
    }
  }

  lemma HasMember<T>(s: seq<T>)
    ensures s != [] ==> exists x :: x in s
  {
    if s != [] {
      assert s[0] in s;
    }
  }

  ghost predicate NoRepeats<T>(s: seq<T>)
  {
    forall i, j :: 0 <= i < j < |s| ==> s[i] != s[j]
  }

  lemma {:induction false} NoRepeatsMultiset<T>(s: seq<T>)
    ensures NoRepeats(s) <==> forall x :: x in s ==> multiset(s)[x] == 1
  {
    if s != [] {
      var n := |s| - 1;
      var init, last := s[..n], s[n];
      assert s == init + [last];
      NoRepeatsMultiset(init);
      if NoRepeats(s) {
        assert NoRepeats(init) && last !in init;
        forall x | x in s ensures multiset(s)[x] == 1 {
        }
      } else {
        var i, j :| 0 <= i < j < |s| && s[i] == s[j];
        assert s == s[..j] + [s[j]] + s[j + 1..];
        assert s[i] in s[..j];
        assert multiset(s)[s[j]] >= 2;
      }
    }
  }

  /** Sequences without repeats and with the same elements are permutations of each other. */
  lemma SameElementsSameMultiset<T>(s: seq<T>, t: seq<T>)
    requires NoRepeats(s) && NoRepeats(t) && forall x :: x in s <==> x in t
    ensures multiset(s) == multiset(t)
  {
    NoRepeatsMultiset(s);
    NoRepeatsMultiset(t);
    forall x ensures multiset(s)[x] == multiset(t)[x] {
      if x !in s {
        assert x !in t && multiset(s)[x] == 0 && multiset(t)[x] == 0;
      }
    }
  }

  lemma PermutationNoRepeats<T>(s: seq<T>, t: seq<T>)
    requires NoRepeats(s) && multiset(s) == multiset(t)
    ensures NoRepeats(t) && (forall x :: x in s <==> x in t)
  {
    NoRepeatsMultiset(s);
    NoRepeatsMultiset(t);
    forall x ensures x in s <==> x in t {
      assert x in s <==> x in multiset(s);
      assert x in t <==> x in multiset(t);
    }
  }

  /** The elements that count as equal to x, in their order. */
  ghost function Tied<T>(s: seq<T>, x: T, le: (T, T) -> bool): seq<T>
  {
    if s == [] then [] else (if le(s[0], x) && le(x, s[0]) then [s[0]] else []) + Tied(s[1..], x, le)
  }

  lemma TiedFirst<T>(x: T, s: seq<T>, y: T, le: (T, T) -> bool)
    ensures Tied([x] + s, y, le) == Tied([x], y, le) + Tied(s, y, le)
  {
    assert ([x] + s)[1..] == s && [x][1..] == [];
  }

  /** Of two elements out of order, one at most counts as equal to y. */
  lemma NotBothTied<T(!new)>(x: T, z: T, y: T, le: (T, T) -> bool)
    requires TotalPreorder(le) && !le(x, z)
    ensures Tied([x], y, le) == [] || Tied([z], y, le) == []
  {
    assert [x][1..] == [] && [z][1..] == [];
  }

  lemma EmptyMoves<T>(p: seq<T>, q: seq<T>, r: seq<T>)
    requires p == [] || q == []
    ensures p + (q + r) == q + (p + r)
  {
  }

  lemma {:induction false} InsertStable<T(!new)>(x: T, s: seq<T>, y: T, le: (T, T) -> bool)
    requires TotalPreorder(le)
    ensures Tied(Insert(x, s, le), y, le) == Tied([x], y, le) + Tied(s, y, le)
  {
    hide TotalPreorder;
    hide Tied;
    if s != [] && !le(x, s[0]) {
      var z, rest := s[0], s[1..];
      assert s == [z] + rest;
      InsertStable(x, rest, y, le);
      TiedFirst(z, Insert(x, rest, le), y, le);
      TiedFirst(z, rest, y, le);
      NotBothTied(x, z, y, le);
      EmptyMoves(Tied([x], y, le), Tied([z], y, le), Tied(rest, y, le));
    } else {
      assert s == [] ==> [x] + s == [x];
      TiedFirst(x, s, y, le);
    }
  }

  /** The sort is stable: elements that count as equal keep the order they had. */
  lemma {:induction false} SortedStable<T(!new)>(s: seq<T>, y: T, le: (T, T) -> bool)
    requires TotalPreorder(le)
    ensures Tied(Sorted(s, le), y, le) == Tied(s, y, le)
  {
    if s != [] {
      SortedStable(s[1..], y, le);
      InsertStable(s[0], Sorted(s[1..], le), y, le);
      TiedFirst(s[0], s[1..], y, le);
      assert s == [s[0]] + s[1..];
    }
  }
}
