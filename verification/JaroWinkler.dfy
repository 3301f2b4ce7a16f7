/**
 The string similarity of tools/choose_release.py: a greedy windowed matching on two arrays of marks, a
 scan for transpositions, and Winkler's prefix bonus, over exact reals. Lower-casing is a parameter.
 */
module JaroWinkler {

  // ------------------------------------------------------------------ matchings

  /** Position i of a and position j of b hold the same character, at most reach apart. */
  predicate Compatible(a: string, b: string, reach: nat, i: nat, j: nat)
  {
    i < |a| && j < |b| && a[i] == b[j] && i <= j + reach && j <= i + reach
  }

  /** A one-to-one pairing of compatible positions. */
  ghost predicate Matching(a: string, b: string, reach: nat, m: set<(nat, nat)>)
  {
    && (forall p :: p in m ==> Compatible(a, b, reach, p.0, p.1))
    && (forall p, q :: p in m && q in m && (p.0 == q.0 || p.1 == q.1) ==> p == q)
  }

  /** A matching no other matching outnumbers. */
  ghost predicate Maximum(a: string, b: string, reach: nat, m: set<(nat, nat)>)
  {
    Matching(a, b, reach, m) && forall n :: Matching(a, b, reach, n) ==> |n| <= |m|
  }

  ghost predicate Free(g: set<(nat, nat)>, j: nat)
  {
    forall p :: p in g ==> p.1 != j
  }

  ghost predicate Candidate(a: string, b: string, reach: nat, g: set<(nat, nat)>, i: nat, j: nat)
  {
    Compatible(a, b, reach, i, j) && Free(g, j)
  }

  /** What the inner loop picks for i: the first free compatible position. */
  ghost predicate Picks(a: string, b: string, reach: nat, g: set<(nat, nat)>, i: nat, j: nat)
  {
    Candidate(a, b, reach, g, i, j) && forall k :: 0 <= k < j ==> !Candidate(a, b, reach, g, i, k)
  }

  /** Position k of b is the partner of a position of a before i. */
  ghost predicate TakenBefore(g: set<(nat, nat)>, i: nat, k: nat)
  {
    exists p :: p in g && p.0 < i && p.1 == k
  }

  /** Each position of a before i has the first compatible one of b that no earlier position took, if there is any. */
  ghost predicate ServedUpTo(a: string, b: string, reach: nat, g: set<(nat, nat)>, i: nat)
  {
    && (forall p, k :: p in g && 0 <= k < p.1 && Compatible(a, b, reach, p.0, k) ==> TakenBefore(g, p.0, k))
    && (forall h: nat, k: nat :: h < i && Compatible(a, b, reach, h, k) && !TakenBefore(g, h, k) ==>
          exists p :: p in g && p.0 == h)
  }

  ghost predicate FirstComeFirstServed(a: string, b: string, reach: nat, g: set<(nat, nat)>)
  {
    ServedUpTo(a, b, reach, g, |a|)
  }

  /** m makes the greedy choices g at every position before i. */
  ghost predicate Agrees(m: set<(nat, nat)>, g: set<(nat, nat)>, i: nat)
  {
    g <= m && forall p :: p in m && p.0 < i ==> p in g
  }

  ghost predicate Before(g: set<(nat, nat)>, i: nat)
  {
    forall p :: p in g ==> p.0 < i
  }

  /** m is as large as n and makes the greedy choices so far. */
  ghost predicate Follows(a: string, b: string, reach: nat, m: set<(nat, nat)>, n: set<(nat, nat)>,
                          g: set<(nat, nat)>, i: nat)
  {
    Matching(a, b, reach, m) && |m| >= |n| && Agrees(m, g, i)
  }

  ghost predicate Reachable(a: string, b: string, reach: nat, n: set<(nat, nat)>, g: set<(nat, nat)>, i: nat)
  {
    exists m :: Follows(a, b, reach, m, n, g, i)
  }

  /** Every matching is outnumbered or equalled by one that makes the greedy choices so far. */
  ghost predicate Unbeaten(a: string, b: string, reach: nat, g: set<(nat, nat)>, i: nat)
  {
    forall n {:trigger Reachable(a, b, reach, n, g, i)} ::
      Matching(a, b, reach, n) ==> Reachable(a, b, reach, n, g, i)
  }

  lemma SubMatching(a: string, b: string, reach: nat, m: set<(nat, nat)>, rest: set<(nat, nat)>)
    requires Matching(a, b, reach, m) && rest <= m
    ensures Matching(a, b, reach, rest)
  {
  }

  /** A pair of which no other pair uses an end. */
  lemma AddPair(a: string, b: string, reach: nat, rest: set<(nat, nat)>, i: nat, j: nat)
    requires Matching(a, b, reach, rest) && Compatible(a, b, reach, i, j)
    requires forall p :: p in rest ==> p.0 != i && p.1 != j
    ensures Matching(a, b, reach, rest + {(i, j)}) && |rest + {(i, j)}| == |rest| + 1
  {
    assert (i, j) !in rest;
  }

  /** Pairs at or after i exchanged for a pair at i and pairs after it. */
  lemma AgreesAfter(m: set<(nat, nat)>, g: set<(nat, nat)>, i: nat, j: nat, gone: set<(nat, nat)>,
                    added: set<(nat, nat)>)
    requires Agrees(m, g, i) && Before(g, i) && (i, j) in added
    requires forall p :: p in gone ==> p.0 >= i
    requires forall p :: p in added ==> p == (i, j) || p.0 > i
    requires forall p :: p in m && p.0 == i ==> p in gone
    ensures Agrees(m - gone + added, g + {(i, j)}, i + 1)
  {
  }

  /** The ends of a matching's pairs, by position. */
  ghost predicate UsesFirst(m: set<(nat, nat)>, i: nat)
  {
    exists p :: p in m && p.0 == i
  }

  lemma ExchangeNone(a: string, b: string, reach: nat, g: set<(nat, nat)>, i: nat, j: nat, m: set<(nat, nat)>)
    returns (m': set<(nat, nat)>)
    requires Matching(a, b, reach, m) && Before(g, i) && Agrees(m, g, i) && Compatible(a, b, reach, i, j)
    requires !UsesFirst(m, i) && Free(m, j)
    ensures Matching(a, b, reach, m') && |m'| >= |m| && Agrees(m', g + {(i, j)}, i + 1)
  {
    m' := m + {(i, j)};
    AddPair(a, b, reach, m, i, j);
    AgreesAfter(m, g, i, j, {}, {(i, j)});
    assert m - {} + {(i, j)} == m';
  }

  /** The pair dropped gives way to (i, j); nothing else uses i or j. */
  lemma ExchangeOne(a: string, b: string, reach: nat, g: set<(nat, nat)>, i: nat, j: nat, m: set<(nat, nat)>,
                    dropped: (nat, nat))
    returns (m': set<(nat, nat)>)
    requires Matching(a, b, reach, m) && Before(g, i) && Agrees(m, g, i) && Compatible(a, b, reach, i, j)
    requires dropped in m && dropped.0 >= i
    requires !UsesFirst(m - {dropped}, i) && Free(m - {dropped}, j)
    ensures Matching(a, b, reach, m') && |m'| >= |m| && Agrees(m', g + {(i, j)}, i + 1)
  {
    var rest := m - {dropped};
    assert m == rest + {dropped};
    m' := rest + {(i, j)};
    SubMatching(a, b, reach, m, rest);
    AddPair(a, b, reach, rest, i, j);
    forall p | p in m && p.0 == i ensures p in {dropped} {
      assert p in rest ==> UsesFirst(rest, i);
    }
    AgreesAfter(m, g, i, j, {dropped}, {(i, j)});
  }

  lemma WithoutTwo(a: string, b: string, reach: nat, m: set<(nat, nat)>, p1: (nat, nat), p2: (nat, nat))
    requires Matching(a, b, reach, m) && p1 in m && p2 in m && p1 != p2
    ensures Matching(a, b, reach, m - {p1, p2}) && |m| == |m - {p1, p2}| + 2
    ensures forall p :: p in m - {p1, p2} ==> p.0 != p1.0 && p.0 != p2.0 && p.1 != p1.1 && p.1 != p2.1
  {
    var one := m - {p1};
    assert m == one + {p1};
    assert one == (m - {p1, p2}) + {p2};
    forall p | p in m - {p1, p2} ensures p.0 != p1.0 && p.0 != p2.0 && p.1 != p1.1 && p.1 != p2.1 {
      assert p in m && p != p1 && p != p2;
    }
  }

  /** Two crossing pairs uncrossed are a matching of the same size. */
  lemma Uncross(a: string, b: string, reach: nat, m: set<(nat, nat)>, i: nat, j: nat, i2: nat, j2: nat)
    requires Matching(a, b, reach, m) && (i, j2) in m && (i2, j) in m && i < i2 && j < j2
    requires Compatible(a, b, reach, i, j) && Compatible(a, b, reach, i2, j2)
    ensures var m' := m - {(i, j2), (i2, j)} + {(i, j), (i2, j2)};
      Matching(a, b, reach, m') && |m'| == |m|
  {
    hide Matching;
    hide Compatible;
    var rest := m - {(i, j2), (i2, j)};
    WithoutTwo(a, b, reach, m, (i, j2), (i2, j));
    AddPair(a, b, reach, rest, i, j);
    AddPair(a, b, reach, rest + {(i, j)}, i2, j2);
    assert rest + {(i, j), (i2, j2)} == rest + {(i, j)} + {(i2, j2)};
  }

  lemma ExchangeTwo(a: string, b: string, reach: nat, g: set<(nat, nat)>, i: nat, j: nat, m: set<(nat, nat)>, i2: nat,
                    j2: nat)
    returns (m': set<(nat, nat)>)
    requires Matching(a, b, reach, m) && Before(g, i) && Agrees(m, g, i) && Compatible(a, b, reach, i, j)
    requires (i, j2) in m && (i2, j) in m && i < i2 && j < j2
    ensures Matching(a, b, reach, m') && |m'| >= |m| && Agrees(m', g + {(i, j)}, i + 1)
  {
    m' := m - {(i, j2), (i2, j)} + {(i, j), (i2, j2)};
    assert Compatible(a, b, reach, i2, j2) by {
      assert Compatible(a, b, reach, (i, j2).0, (i, j2).1) && Compatible(a, b, reach, (i2, j).0, (i2, j).1);
    }
    Uncross(a, b, reach, m, i, j, i2, j2);
    AgreesAfter(m, g, i, j, {(i, j2), (i2, j)}, {(i, j), (i2, j2)});
  }

  /**
   The exchange step: a matching that makes the greedy choices before i can be changed, without losing
   a pair, into one that also makes the greedy choice at i.
   */
  lemma Exchange(a: string, b: string, reach: nat, g: set<(nat, nat)>, i: nat, j: nat, m: set<(nat, nat)>)
    returns (m': set<(nat, nat)>)
    requires Matching(a, b, reach, m) && Before(g, i) && Agrees(m, g, i) && Picks(a, b, reach, g, i, j)
    ensures Matching(a, b, reach, m') && |m'| >= |m| && Agrees(m', g + {(i, j)}, i + 1)
  {
    if (i, j) in m {
      m' := m;
      OwnPair(a, b, reach, g, i, j, m);
    } else if UsesFirst(m, i) {
      var p1 :| p1 in m && p1.0 == i;
      OwnChoiceIsLater(a, b, reach, g, i, j, m, p1.1);
      if !Free(m, j) {
        var p2 :| p2 in m && p2.1 == j;
        assert p2.0 > i;
        m' := ExchangeTwo(a, b, reach, g, i, j, m, p2.0, p1.1);
      } else {
        m' := ExchangeOne(a, b, reach, g, i, j, m, p1);
      }
    } else if !Free(m, j) {
      var p2 :| p2 in m && p2.1 == j;
      assert p2.0 > i;
      m' := ExchangeOne(a, b, reach, g, i, j, m, p2);
    } else {
      m' := ExchangeNone(a, b, reach, g, i, j, m);
    }
  }

  lemma OwnPair(a: string, b: string, reach: nat, g: set<(nat, nat)>, i: nat, j: nat, m: set<(nat, nat)>)
    requires Matching(a, b, reach, m) && Agrees(m, g, i) && (i, j) in m
    ensures Agrees(m, g + {(i, j)}, i + 1)
  {
    forall p | p in m && p.0 < i + 1 ensures p in g + {(i, j)} {
      if p.0 == i {
        assert p == (i, j);
      }
    }
  }

  /** What a matching that follows the greedy choices pairs with i, if not the greedy choice, lies past it. */
  lemma OwnChoiceIsLater(a: string, b: string, reach: nat, g: set<(nat, nat)>, i: nat, j: nat, m: set<(nat, nat)>,
                         j2: nat)
    requires Matching(a, b, reach, m) && Before(g, i) && Agrees(m, g, i) && Picks(a, b, reach, g, i, j)
    requires (i, j2) in m && j2 != j
    ensures j < j2
  {
    forall p | p in g ensures p.1 != j2 {
      assert p in m && p.0 < i;
    }
    assert Candidate(a, b, reach, g, i, j2);
  }

  /** When the inner loop picks nothing for i, no matching that follows it can. */
  lemma NothingToPick(a: string, b: string, reach: nat, g: set<(nat, nat)>, i: nat, m: set<(nat, nat)>)
    requires Matching(a, b, reach, m) && Before(g, i) && Agrees(m, g, i)
    requires forall k :: 0 <= k < |b| ==> !Candidate(a, b, reach, g, i, k)
    ensures Agrees(m, g, i + 1)
  {
    forall p | p in m && p.0 < i + 1 ensures p in g {
      if p.0 == i {
        assert Free(g, p.1);
        assert Candidate(a, b, reach, g, i, p.1);
      }
    }
  }

  /** The same pairs seen from b. */
  ghost function Flipped(m: set<(nat, nat)>): set<(nat, nat)>
  {
    set p | p in m :: (p.1, p.0)
  }

  lemma {:induction false} FlippedSize(m: set<(nat, nat)>)
    ensures |Flipped(m)| == |m|
  {
    if m != {} {
      var p :| p in m;
      FlippedSize(m - {p});
      assert Flipped(m) == Flipped(m - {p}) + {(p.1, p.0)};
    }
  }

  lemma FlippedMatching(a: string, b: string, reach: nat, m: set<(nat, nat)>)
    requires Matching(a, b, reach, m)
    ensures Matching(b, a, reach, Flipped(m))
  {
  }

  /** The number of matches does not depend on which string comes first. */
  lemma MatchCountSymmetric(a: string, b: string, reach: nat, m: set<(nat, nat)>, n: set<(nat, nat)>)
    requires Maximum(a, b, reach, m) && Maximum(b, a, reach, n)
    ensures |m| == |n|
  {
    FlippedMatching(a, b, reach, m);
    FlippedMatching(b, a, reach, n);
    FlippedSize(m);
    FlippedSize(n);
  }

  // ---------------------------------------------------------------------- marks

  /** The characters of s whose marks are set, in order, among the first n. */
  function Hits(s: string, hit: seq<bool>, n: nat): string
    requires n <= |s| == |hit|
  {
    if n == 0 then "" else Hits(s, hit, n - 1) + (if hit[n - 1] then [s[n - 1]] else "")
  }

  function HitCount(s: string, hit: seq<bool>): nat
    requires |s| == |hit|
  {
    |Hits(s, hit, |s|)|
  }

  lemma {:induction false} HitsUnaffected(s: string, hit: seq<bool>, i: nat, n: nat)
    requires n <= i < |s| == |hit|
    ensures Hits(s, hit[i := true], n) == Hits(s, hit, n)
  {
    if n > 0 {
      HitsUnaffected(s, hit, i, n - 1);
    }
  }

  lemma {:induction false} HitsGrow(s: string, hit: seq<bool>, i: nat, n: nat)
    requires i < n <= |s| == |hit| && !hit[i]
    ensures |Hits(s, hit[i := true], n)| == |Hits(s, hit, n)| + 1
  {
    if n - 1 == i {
      HitsUnaffected(s, hit, i, i);
    } else {
      HitsGrow(s, hit, i, n - 1);
    }
  }

  lemma {:induction false} HitsBound(s: string, hit: seq<bool>, n: nat)
    requires n <= |s| == |hit|
    ensures |Hits(s, hit, n)| <= n
    ensures |Hits(s, hit, n)| == n ==> Hits(s, hit, n) == s[..n]
  {
    if n > 0 {
      HitsBound(s, hit, n - 1);
    }
  }

  lemma {:induction false} NoHits(s: string, hit: seq<bool>, n: nat)
    requires n <= |s| == |hit|
    requires forall i :: 0 <= i < n ==> !hit[i]
    ensures Hits(s, hit, n) == ""
  {
    if n > 0 {
      NoHits(s, hit, n - 1);
    }
  }

  lemma NoHitCount(s: string, hit: seq<bool>)
    requires |s| == |hit| && forall i :: 0 <= i < |hit| ==> !hit[i]
    ensures HitCount(s, hit) == 0
  {
    NoHits(s, hit, |s|);
  }

  lemma {:induction false} HitsPrefix(s: string, hit: seq<bool>, m: nat, n: nat)
    requires m <= n <= |s| == |hit|
    ensures |Hits(s, hit, m)| <= |Hits(s, hit, n)|
  {
    if m < n {
      HitsPrefix(s, hit, m, n - 1);
    }
  }

  /** How many positions of two equally long strings differ. */
  function Mismatches(u: string, v: string): nat
    requires |u| == |v|
  {
    if u == "" then 0
    else Mismatches(u[..|u| - 1], v[..|v| - 1]) + if u[|u| - 1] == v[|v| - 1] then 0 else 1
  }

  lemma {:induction false} MismatchesBound(u: string, v: string)
    requires |u| == |v|
    ensures Mismatches(u, v) <= |u|
    ensures Mismatches(u, v) == 0 <==> u == v
  {
    if u != "" {
      MismatchesBound(u[..|u| - 1], v[..|v| - 1]);
      assert u == u[..|u| - 1] + [u[|u| - 1]];
      assert v == v[..|v| - 1] + [v[|v| - 1]];
    }
  }

  lemma MismatchesStep(u: string, v: string, c: char, d: char)
    requires |u| == |v|
    ensures Mismatches(u + [c], v + [d]) == Mismatches(u, v) + if c == d then 0 else 1
  {
    assert (u + [c])[..|u|] == u && (v + [d])[..|v|] == v;
  }

  // ------------------------------------------------------------------ the loops

  ghost predicate MarksFirst(g: set<(nat, nat)>, hit: seq<bool>)
  {
    forall i: nat :: i < |hit| ==> (hit[i] <==> exists p :: p in g && p.0 == i)
  }

  ghost predicate MarksSecond(g: set<(nat, nat)>, hit: seq<bool>)
  {
    forall j: nat :: j < |hit| ==> (hit[j] <==> !Free(g, j))
  }

  /** Marking both ends of a new pair keeps the marks exact and counts it once in each string. */
  lemma MarkPair(a: string, b: string, g: set<(nat, nat)>, ah: seq<bool>, bh: seq<bool>, i: nat, j: nat)
    requires |ah| == |a| && |bh| == |b| && i < |a| && j < |b|
    requires MarksFirst(g, ah) && MarksSecond(g, bh) && Before(g, i) && Free(g, j)
    ensures MarksFirst(g + {(i, j)}, ah[i := true]) && MarksSecond(g + {(i, j)}, bh[j := true])
    ensures |g + {(i, j)}| == |g| + 1
    ensures HitCount(a, ah[i := true]) == HitCount(a, ah) + 1
    ensures HitCount(b, bh[j := true]) == HitCount(b, bh) + 1
  {
    assert (i, j) !in g;
    var g', ah', bh' := g + {(i, j)}, ah[i := true], bh[j := true];
    forall x: nat | x < |ah'| ensures ah'[x] <==> exists p :: p in g' && p.0 == x {
      if ah'[x] {
        if x == i {
          assert (i, j) in g' && (i, j).0 == x;
        } else {
          var p :| p in g && p.0 == x;
          assert p in g';
        }
      }
    }
    forall y: nat | y < |bh'| ensures bh'[y] <==> !Free(g', y) {
      if y == j {
        assert (i, j) in g' && (i, j).1 == y;
      } else if !Free(g, y) {
        var p :| p in g && p.1 == y;
        assert p in g';
      }
    }
    HitsGrow(a, ah, i, |a|);
    HitsGrow(b, bh, j, |b|);
  }

  /** The inner loop: the first free compatible position, or the end of the window. */
  method FindFree(a: string, b: string, reach: nat, bHit: array<bool>, i: nat, ghost g: set<(nat, nat)>)
    returns (found: bool, j: nat)
    requires i < |a| && bHit.Length == |b| && MarksSecond(g, bHit[..])
    ensures found ==> Picks(a, b, reach, g, i, j)
    ensures !found ==> forall k :: 0 <= k < |b| ==> !Candidate(a, b, reach, g, i, k)
  {
    j := if i > reach then i - reach else 0;
    var end := if |b| < i + reach + 1 then |b| else i + reach + 1;
    while j < end
      invariant forall k :: 0 <= k < j ==> !Candidate(a, b, reach, g, i, k)
    {
      assert bHit[j] == bHit[..][j];
      if !bHit[j] && b[j] == a[i] {
        return true, j;
      }
      j := j + 1;
    }
    found := false;
  }

  /** What holds before the i-th character looks for its partner. */
  ghost predicate Progressing(a: string, b: string, reach: nat, g: set<(nat, nat)>, ah: seq<bool>, bh: seq<bool>,
                              i: nat)
  {
    && |ah| == |a| && |bh| == |b| && Matching(a, b, reach, g) && Before(g, i)
    && MarksFirst(g, ah) && MarksSecond(g, bh)
    && HitCount(a, ah) == HitCount(b, bh) == |g|
    && Unbeaten(a, b, reach, g, i) && ServedUpTo(a, b, reach, g, i)
  }

  lemma MarksKept(a: string, b: string, reach: nat, g: set<(nat, nat)>, ah: seq<bool>, bh: seq<bool>, i: nat)
    requires Progressing(a, b, reach, g, ah, bh, i)
    ensures |ah| == |a| && |bh| == |b| && MarksSecond(g, bh)
  {
  }

  lemma Starts(a: string, b: string, reach: nat, ah: seq<bool>, bh: seq<bool>)
    requires |ah| == |a| && |bh| == |b|
    requires (forall i :: 0 <= i < |a| ==> !ah[i]) && (forall j :: 0 <= j < |b| ==> !bh[j])
    ensures Progressing(a, b, reach, {}, ah, bh, 0)
  {
    hide HitCount;
    hide Unbeaten;
    NoHitCount(a, ah);
    NoHitCount(b, bh);
    StartsUnbeaten(a, b, reach);
  }

  lemma AfterPick(a: string, b: string, reach: nat, g: set<(nat, nat)>, ah: seq<bool>, bh: seq<bool>, i: nat, j: nat)
    requires Progressing(a, b, reach, g, ah, bh, i) && Picks(a, b, reach, g, i, j) && i < |a|
    ensures Progressing(a, b, reach, g + {(i, j)}, ah[i := true], bh[j := true], i + 1)
    ensures |g + {(i, j)}| == |g| + 1
  {
    hide HitCount;
    hide Unbeaten;
    hide MarksFirst;
    hide MarksSecond;
    hide ServedUpTo;
    MarkPair(a, b, g, ah, bh, i, j);
    FollowPick(a, b, reach, g, i, j);
    ServePick(a, b, reach, g, i, j);
  }

  lemma AfterNothing(a: string, b: string, reach: nat, g: set<(nat, nat)>, ah: seq<bool>, bh: seq<bool>, i: nat)
    requires Progressing(a, b, reach, g, ah, bh, i)
    requires forall k :: 0 <= k < |b| ==> !Candidate(a, b, reach, g, i, k)
    ensures Progressing(a, b, reach, g, ah, bh, i + 1)
  {
    hide HitCount;
    hide Unbeaten;
    hide MarksFirst;
    hide MarksSecond;
    hide Matching;
    hide ServedUpTo;
    FollowNothing(a, b, reach, g, i);
    ServeNothing(a, b, reach, g, i);
  }

  lemma Ends(a: string, b: string, reach: nat, g: set<(nat, nat)>, ah: seq<bool>, bh: seq<bool>)
    requires Progressing(a, b, reach, g, ah, bh, |a|)
    ensures Maximum(a, b, reach, g) && FirstComeFirstServed(a, b, reach, g) && MarksFirst(g, ah) && MarksSecond(g, bh)
    ensures HitCount(a, ah) == HitCount(b, bh) == |g|
  {
    UnbeatenIsMaximum(a, b, reach, g);
  }

  /**
   The greedy matching: each character of a takes the first unmarked equal character of b in its window.
   It finds a maximum matching, and marks one position of each string for every pair of it.
   */
  method MatchGreedily(a: string, b: string, reach: nat, aHit: array<bool>, bHit: array<bool>)
    returns (matches: nat, ghost g: set<(nat, nat)>)
    requires aHit.Length == |a| && bHit.Length == |b| && aHit != bHit
    requires forall i :: 0 <= i < |a| ==> !aHit[i]
    requires forall j :: 0 <= j < |b| ==> !bHit[j]
    modifies aHit, bHit
    ensures Maximum(a, b, reach, g) && FirstComeFirstServed(a, b, reach, g) && matches == |g|
    ensures MarksFirst(g, aHit[..]) && MarksSecond(g, bHit[..])
    ensures HitCount(a, aHit[..]) == HitCount(b, bHit[..]) == matches
  {
    hide Progressing;
    matches, g := 0, {};
    Starts(a, b, reach, aHit[..], bHit[..]);
    for i := 0 to |a|
      invariant Progressing(a, b, reach, g, aHit[..], bHit[..], i) && matches == |g|
    {
      ghost var ah, bh := aHit[..], bHit[..];
      MarksKept(a, b, reach, g, ah, bh, i);
      var found, j := FindFree(a, b, reach, bHit, i, g);
      if found {
        aHit[i], bHit[j] := true, true;
        assert aHit[..] == ah[i := true] && bHit[..] == bh[j := true];
        AfterPick(a, b, reach, g, ah, bh, i, j);
        matches := matches + 1;
        g := g + {(i, j)};
      } else {
        AfterNothing(a, b, reach, g, ah, bh, i);
      }
    }
    Ends(a, b, reach, g, aHit[..], bHit[..]);
  }

  lemma StartsUnbeaten(a: string, b: string, reach: nat)
    ensures Unbeaten(a, b, reach, {}, 0)
  {
    forall n | Matching(a, b, reach, n) ensures Reachable(a, b, reach, n, {}, 0) {
      assert Follows(a, b, reach, n, n, {}, 0);
    }
  }

  lemma UnbeatenIsMaximum(a: string, b: string, reach: nat, g: set<(nat, nat)>)
    requires Matching(a, b, reach, g) && Unbeaten(a, b, reach, g, |a|)
    ensures Maximum(a, b, reach, g)
  {
    forall n | Matching(a, b, reach, n) ensures |n| <= |g| {
      assert Reachable(a, b, reach, n, g, |a|);
      var m :| Follows(a, b, reach, m, n, g, |a|);
      assert m == g;
    }
  }

  lemma ServePick(a: string, b: string, reach: nat, g: set<(nat, nat)>, i: nat, j: nat)
    requires Before(g, i) && Picks(a, b, reach, g, i, j) && ServedUpTo(a, b, reach, g, i)
    ensures ServedUpTo(a, b, reach, g + {(i, j)}, i + 1)
  {
    var g' := g + {(i, j)};
    assert (i, j) in g';
    forall h: nat, k: nat | TakenBefore(g, h, k) ensures TakenBefore(g', h, k) {
    }
    forall p, k | p in g' && 0 <= k < p.1 && Compatible(a, b, reach, p.0, k) ensures TakenBefore(g', p.0, k) {
      if p == (i, j) {
        assert !Candidate(a, b, reach, g, i, k);
      }
    }
  }

  lemma ServeNothing(a: string, b: string, reach: nat, g: set<(nat, nat)>, i: nat)
    requires Before(g, i) && ServedUpTo(a, b, reach, g, i)
    requires forall k :: 0 <= k < |b| ==> !Candidate(a, b, reach, g, i, k)
    ensures ServedUpTo(a, b, reach, g, i + 1)
  {
    forall k: nat | Compatible(a, b, reach, i, k) ensures TakenBefore(g, i, k) {
      assert !Candidate(a, b, reach, g, i, k);
    }
  }

  lemma FollowPick(a: string, b: string, reach: nat, g: set<(nat, nat)>, i: nat, j: nat)
    requires Before(g, i) && Picks(a, b, reach, g, i, j) && Unbeaten(a, b, reach, g, i)
    ensures Unbeaten(a, b, reach, g + {(i, j)}, i + 1)
  {
    var g', i' := g + {(i, j)}, i + 1;
    forall n | Matching(a, b, reach, n) ensures Reachable(a, b, reach, n, g', i') {
      assert Reachable(a, b, reach, n, g, i);
      var m :| Follows(a, b, reach, m, n, g, i);
      var m' := Exchange(a, b, reach, g, i, j, m);
      assert Follows(a, b, reach, m', n, g', i');
    }
  }

  lemma FollowNothing(a: string, b: string, reach: nat, g: set<(nat, nat)>, i: nat)
    requires Before(g, i) && forall k :: 0 <= k < |b| ==> !Candidate(a, b, reach, g, i, k)
    requires Unbeaten(a, b, reach, g, i)
    ensures Unbeaten(a, b, reach, g, i + 1)
  {
    var i' := i + 1;
    forall n | Matching(a, b, reach, n) ensures Reachable(a, b, reach, n, g, i') {
      assert Reachable(a, b, reach, n, g, i);
      var m :| Follows(a, b, reach, m, n, g, i);
      NothingToPick(a, b, reach, g, i, m);
      assert Follows(a, b, reach, m, n, g, i');
    }
  }

  lemma HitsStart(s: string, hit: seq<bool>)
    requires |s| == |hit|
    ensures Hits(s, hit, 0) == "" && Mismatches("", "") == 0
  {
  }

  lemma HitsStep(s: string, hit: seq<bool>, i: nat)
    requires i < |s| == |hit|
    ensures Hits(s, hit, i + 1) == if hit[i] then Hits(s, hit, i) + [s[i]] else Hits(s, hit, i)
  {
  }

  /** The scan for transpositions, which finds a marked character of b for each one of a. */
  method CountTranspositions(a: string, b: string, aHit: array<bool>, bHit: array<bool>)
    returns (transpositions: nat)
    requires aHit.Length == |a| && bHit.Length == |b|
    requires |Hits(a, aHit[..], |a|)| == |Hits(b, bHit[..], |b|)|
    ensures transpositions == Mismatches(Hits(a, aHit[..], |a|), Hits(b, bHit[..], |b|))
  {
    hide Hits;
    hide Mismatches;
    ghost var ah, bh := aHit[..], bHit[..];
    var k := 0;
    transpositions := 0;
    HitsStart(a, ah);
    HitsStart(b, bh);
    for i := 0 to |a|
      invariant k <= |b| && |Hits(a, ah, i)| == |Hits(b, bh, k)|
      invariant transpositions == Mismatches(Hits(a, ah, i), Hits(b, bh, k))
    {
      HitsStep(a, ah, i);
      if aHit[i] {
        HitsPrefix(a, ah, i + 1, |a|);
        while !bHit[k]
          invariant k < |b| && |Hits(a, ah, i)| == |Hits(b, bh, k)|
          invariant transpositions == Mismatches(Hits(a, ah, i), Hits(b, bh, k))
          decreases |b| - k
        {
          HitsStep(b, bh, k);
          k := k + 1;
        }
        HitsStep(b, bh, k);
        MismatchesStep(Hits(a, ah, i), Hits(b, bh, k), a[i], b[k]);
        if a[i] != b[k] {
          transpositions := transpositions + 1;
        }
        k := k + 1;
      }
    }
    HitsPrefix(b, bh, k, |b|);
    SameHits(b, bh, k, |b|);
  }

  lemma {:induction false} SameHits(s: string, hit: seq<bool>, m: nat, n: nat)
    requires m <= n <= |s| == |hit| && |Hits(s, hit, m)| == |Hits(s, hit, n)|
    ensures Hits(s, hit, m) == Hits(s, hit, n)
  {
    if m < n {
      HitsPrefix(s, hit, m, n - 1);
      SameHits(s, hit, m, n - 1);
    }
  }

  /** The length of the common prefix, at most four. */
  method CommonPrefix(a: string, b: string) returns (prefix: nat)
    ensures prefix <= 4 && prefix <= |a| && prefix <= |b| && a[..prefix] == b[..prefix]
    ensures prefix < 4 && prefix < |a| && prefix < |b| ==> a[prefix] != b[prefix]
  {
    prefix := 0;
    while prefix < 4 && prefix < |a| && prefix < |b| && a[prefix] == b[prefix]
      invariant prefix <= 4 && prefix <= |a| && prefix <= |b| && a[..prefix] == b[..prefix]
    {
      prefix := prefix + 1;
    }
  }

  // ------------------------------------------------------------------- the score

  function Reach(a: string, b: string): nat
  {
    var longer := if |a| > |b| then |a| else |b|;
    if longer / 2 - 1 < 0 then 0 else longer / 2 - 1
  }

  /** Half the longer length, less one and not below zero. */
  ghost predicate IsWindow(a: string, b: string, w: nat)
  {
    && (w > 0 ==> 2 * w + 2 <= |a| || 2 * w + 2 <= |b|)
    && |a| <= 2 * w + 3 && |b| <= 2 * w + 3
  }

  lemma ReachIsWindow(a: string, b: string)
    ensures forall w: nat :: IsWindow(a, b, w) <==> w == Reach(a, b)
  {
  }

  /** Jaro's mean of the three shares, for a positive number of matches. */
  function Jaro(lenA: nat, lenB: nat, matches: nat, transpositions: nat): real
    requires 0 < matches <= lenA && matches <= lenB
  {
    var m := matches as real;
    (m / lenA as real + m / lenB as real + (m - transpositions as real / 2.0) / m) / 3.0
  }

  /** Winkler's bonus for a common prefix. */
  function Winkler(jaro: real, prefix: nat): real
  {
    jaro + prefix as real * 0.1 * (1.0 - jaro)
  }

  /**
   What the score leaves of 1: of the three shares' own gap, a tenth less for each leading character in common.
   */
  ghost predicate LeavesGap(lenA: nat, lenB: nat, matches: nat, transpositions: nat, prefix: nat, score: real)
    requires 0 < matches <= lenA && matches <= lenB
  {
    var m, x := matches as real, transpositions as real;
    30.0 * (1.0 - score) == (10 - prefix) as real * (3.0 - m / lenA as real - m / lenB as real - (m - x / 2.0) / m)
  }

  lemma BonusGap(jaro: real, prefix: nat)
    ensures 10.0 * (1.0 - Winkler(jaro, prefix)) == (10 - prefix) as real * (1.0 - jaro)
  {
  }

  /** The score as it is computed, and no other, leaves that gap. */
  lemma ScoreLeavesGap(lenA: nat, lenB: nat, matches: nat, transpositions: nat, prefix: nat, score: real)
    requires 0 < matches <= lenA && matches <= lenB
    ensures LeavesGap(lenA, lenB, matches, transpositions, prefix, score)
      <==> score == Winkler(Jaro(lenA, lenB, matches, transpositions), prefix)
  {
    var m, x := matches as real, transpositions as real;
    var j := Jaro(lenA, lenB, matches, transpositions);
    BonusGap(j, prefix);
    TimesThree(1.0 - j, 3.0 - m / lenA as real - m / lenB as real - (m - x / 2.0) / m, (10 - prefix) as real);
    hide Winkler;
  }

  lemma TimesThree(gap: real, three: real, k: real)
    requires three == 3.0 * gap
    ensures k * three == 3.0 * (k * gap)
  {
  }

  lemma ShareBound(m: real, n: real)
    requires 0.0 < m <= n
    ensures 0.0 < m / n <= 1.0
    ensures m / n == 1.0 <==> m == n
  {
    var q := m / n;
    assert q * n == m;
  }

  lemma JaroBound(lenA: nat, lenB: nat, matches: nat, transpositions: nat)
    requires 0 < matches <= lenA && matches <= lenB && transpositions <= matches
    ensures 0.0 < Jaro(lenA, lenB, matches, transpositions) <= 1.0
    ensures Jaro(lenA, lenB, matches, transpositions) == 1.0
      <==> matches == lenA == lenB && transpositions == 0
  {
    var m := matches as real;
    ShareBound(m, lenA as real);
    ShareBound(m, lenB as real);
    ShareBound(m - transpositions as real / 2.0, m);
  }

  lemma WinklerBound(jaro: real, prefix: nat)
    requires 0.0 < jaro <= 1.0 && prefix <= 4
    ensures 0.0 < Winkler(jaro, prefix) <= 1.0
    ensures Winkler(jaro, prefix) == 1.0 <==> jaro == 1.0
  {
    var k := prefix as real * 0.1;
    assert 0.0 <= k <= 0.4;
    BonusBound(k, 1.0 - jaro);
  }

  lemma BonusBound(k: real, gap: real)
    requires 0.0 <= k <= 0.4 && 0.0 <= gap
    ensures 0.0 <= k * gap <= 0.4 * gap
  {
  }

  /** What the marks and the score of two different strings say: a maximum matching, and its transpositions. */
  ghost predicate Scored(a: string, b: string, g: set<(nat, nat)>, ah: seq<bool>, bh: seq<bool>, prefix: nat,
                         score: real)
  {
    && |ah| == |a| && |bh| == |b|
    && (exists w: nat :: IsWindow(a, b, w) && Maximum(a, b, w, g) && FirstComeFirstServed(a, b, w, g))
    && |Hits(a, ah, |a|)| == |Hits(b, bh, |b|)| == |g|
    && MarksFirst(g, ah) && MarksSecond(g, bh)
    && prefix <= 4 && prefix <= |a| && prefix <= |b| && a[..prefix] == b[..prefix]
    && (prefix < 4 && prefix < |a| && prefix < |b| ==> a[prefix] != b[prefix])
    && |g| <= |a| && |g| <= |b|
    && if |g| == 0 then score == 0.0
       else LeavesGap(|a|, |b|, |g|, Mismatches(Hits(a, ah, |a|), Hits(b, bh, |b|)), prefix, score)
  }

  /** A score lies in [0, 1], is 1 only for equal strings and 0 only when nothing matches. */
  lemma ScoreBound(a: string, b: string, g: set<(nat, nat)>, ah: seq<bool>, bh: seq<bool>, prefix: nat, score: real)
    requires Scored(a, b, g, ah, bh, prefix, score)
    ensures 0.0 <= score <= 1.0
    ensures score == 1.0 <==> |g| > 0 && a == b
    ensures score == 0.0 <==> g == {}
  {
    var u, v := Hits(a, ah, |a|), Hits(b, bh, |b|);
    if |g| > 0 {
      MismatchesBound(u, v);
      JaroBound(|a|, |b|, |g|, Mismatches(u, v));
      WinklerBound(Jaro(|a|, |b|, |g|, Mismatches(u, v)), prefix);
      ScoreLeavesGap(|a|, |b|, |g|, Mismatches(u, v), prefix, score);
      HitsBound(a, ah, |a|);
      HitsBound(b, bh, |b|);
      assert a[..|a|] == a && b[..|b|] == b;
      if a == b {
        var w: nat :| IsWindow(a, b, w) && Maximum(a, b, w, g);
        IdentityMatches(a, w, |a|);
      }
    }
  }

  /** Pairing every position with itself is a matching. */
  lemma {:induction false} IdentityMatches(a: string, reach: nat, n: nat)
    requires n <= |a|
    ensures var m := set i: nat | i < n :: (i, i); Matching(a, a, reach, m) && |m| == n
  {
    if n > 0 {
      IdentityMatches(a, reach, n - 1);
      assert (set i: nat | i < n :: (i, i)) == (set i: nat | i < n - 1 :: (i, i)) + {(n - 1, n - 1)};
    }
  }

  /**
   The whole measure. The two early answers agree with the general formula: equal strings score 1 by
   either route, and so do no others.
   */
  method Similarity(a0: string, b0: string, lower: string -> string) returns (score: real, ghost g: set<(nat, nat)>)
    ensures 0.0 <= score <= 1.0
    ensures score == 1.0 <==> a0 != "" && b0 != "" && lower(a0) == lower(b0)
    ensures a0 != "" && b0 != "" && lower(a0) != lower(b0) ==>
      (score == 0.0 <==> g == {})
      && exists ah, bh, prefix :: Scored(lower(a0), lower(b0), g, ah, bh, prefix, score)
  {
    hide Jaro;
    hide Winkler;
    hide LeavesGap;
    hide Maximum;
    hide Mismatches;
    hide Hits;
    hide MarksFirst;
    hide MarksSecond;
    g := {};
    if a0 == "" || b0 == "" {
      return 0.0, g;
    }
    var a, b := lower(a0), lower(b0);
    if a == b {
      return 1.0, g;
    }
    var aHit, bHit := new bool[|a|](_ => false), new bool[|b|](_ => false);
    var matches: nat;
    matches, g := MatchGreedily(a, b, Reach(a, b), aHit, bHit);
    HitsBound(a, aHit[..], |a|);
    HitsBound(b, bHit[..], |b|);
    ReachIsWindow(a, b);
    assert IsWindow(a, b, Reach(a, b));
    var prefix := CommonPrefix(a, b);
    if matches == 0 {
      score := 0.0;
    } else {
      var transpositions := CountTranspositions(a, b, aHit, bHit);
      score := Winkler(Jaro(|a|, |b|, matches, transpositions), prefix);
      ScoreLeavesGap(|a|, |b|, matches, transpositions, prefix, score);
    }
    assert Scored(a, b, g, aHit[..], bHit[..], prefix, score);
    ScoreBound(a, b, g, aHit[..], bHit[..], prefix, score);
  }
}
