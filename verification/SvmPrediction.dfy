/**
 Evaluation of a libsvm model, as tools/gaia_predict.py does it: kernels over sparse support vectors,
 one decision value per class pair, and the table of pairwise probabilities handed to the coupling
 solver. `exp` is a parameter.
 */
module SvmPrediction {
  import opened PairwiseCoupling
  import opened RealArithmetic
  import opened Sums

  // --------------------------------------------------------------- class pairs

  /** How many pairs (i', j') with i' < j' < k come before those that begin with i. */
  function RowStart(k: nat, i: nat): nat
    requires i <= k
  {
    if i == 0 then 0 else RowStart(k, i - 1) + (k - i)
  }

  /** The position of the pair (i, j) in the order the source visits pairs. */
  function PairIndex(k: nat, i: nat, j: nat): nat
    requires i < j < k
  {
    RowStart(k, i) + (j - i - 1)
  }

  /** The pair at a position: the first row, from i on, that reaches it. */
  function PairAt(k: nat, i: nat, p: nat): (nat, nat)
    requires i < k && RowStart(k, i) <= p
    decreases k - i
  {
    if i + 1 == k || p < RowStart(k, i + 1) then (i, p - RowStart(k, i) + i + 1) else PairAt(k, i + 1, p)
  }

  lemma {:induction false} RowStartMonotone(k: nat, i: nat, j: nat)
    requires i <= j <= k
    ensures RowStart(k, i) <= RowStart(k, j)
  {
    if i < j {
      RowStartMonotone(k, i, j - 1);
    }
  }

  lemma {:induction false} RowStartClosed(k: nat, i: nat)
    requires i <= k
    ensures 2 * RowStart(k, i) == i * (2 * k - i - 1)
  {
    if i > 0 {
      RowStartClosed(k, i - 1);
    }
  }

  lemma {:induction false} PairAtOfIndex(k: nat, from: nat, i: nat, j: nat)
    requires from <= i < j < k
    ensures RowStart(k, from) <= PairIndex(k, i, j)
    ensures PairAt(k, from, PairIndex(k, i, j)) == (i, j)
    decreases i - from
  {
    RowStartMonotone(k, from, i);
    if from < i {
      RowStartMonotone(k, from + 1, i);
      PairAtOfIndex(k, from + 1, i, j);
    }
  }

  lemma {:induction false} IndexOfPairAt(k: nat, from: nat, p: nat)
    requires from < k && RowStart(k, from) <= p < RowStart(k, k)
    ensures var (i, j) := PairAt(k, from, p); from <= i < j < k && PairIndex(k, i, j) == p
    decreases k - from
  {
    if from + 1 < k && p >= RowStart(k, from + 1) {
      IndexOfPairAt(k, from + 1, p);
    }
  }

  /** Positions and pairs correspond one to one, and there are k (k - 1) / 2 of them. */
  lemma PairsNumbered(k: nat)
    ensures forall i, j :: 0 <= i < j < k ==>
      PairIndex(k, i, j) < RowStart(k, k) && PairAt(k, 0, PairIndex(k, i, j)) == (i, j)
    ensures forall p :: 0 <= p < RowStart(k, k) ==>
      k > 0 && var (i, j) := PairAt(k, 0, p); 0 <= i < j < k && PairIndex(k, i, j) == p
    ensures RowStart(k, k) == k * (k - 1) / 2
  {
    RowStartClosed(k, k);
    forall i, j | 0 <= i < j < k
      ensures PairIndex(k, i, j) < RowStart(k, k) && PairAt(k, 0, PairIndex(k, i, j)) == (i, j)
    {
      PairAtOfIndex(k, 0, i, j);
      RowStartMonotone(k, i + 1, k);
    }
    forall p | 0 <= p < RowStart(k, k)
      ensures k > 0 && var (i, j) := PairAt(k, 0, p); 0 <= i < j < k && PairIndex(k, i, j) == p
    {
      IndexOfPairAt(k, 0, p);
    }
  }

  // ----------------------------------------------------------------- decisions

  datatype SvmModel = SvmModel(
    nrClass: nat,
    rho: seq<real>,
    probA: seq<real>,
    probB: seq<real>,
    nrSv: seq<nat>,
    svCoef: seq<seq<real>>)
  {
    /** Support vectors are grouped by class, with nrClass - 1 coefficients each. */
    ghost predicate Grouped()
    {
      && nrClass >= 2
      && |nrSv| == nrClass
      && |svCoef| == Start(nrSv, nrClass)
      && forall s :: 0 <= s < |svCoef| ==> |svCoef[s]| == nrClass - 1
    }

    /** The shape of a model file: grouped vectors, and one threshold and one sigmoid per class pair. */
    ghost predicate Valid()
    {
      Grouped() && |rho| == |probA| == |probB| == RowStart(nrClass, nrClass)
    }
  }

  /** Where class c's support vectors begin. */
  function Start(nrSv: seq<nat>, c: nat): nat
    requires c <= |nrSv|
  {
    if c == 0 then 0 else Start(nrSv, c - 1) + nrSv[c - 1]
  }

  ghost predicate InBlock(nrSv: seq<nat>, c: nat, s: int)
    requires c < |nrSv|
  {
    Start(nrSv, c) <= s < Start(nrSv, c + 1)
  }

  lemma {:induction false} StartMonotone(nrSv: seq<nat>, c: nat, d: nat)
    requires c <= d <= |nrSv|
    ensures Start(nrSv, c) <= Start(nrSv, d)
  {
    if c < d {
      StartMonotone(nrSv, c, d - 1);
    }
  }

  /** Blocks follow one another, inside the list of support vectors. */
  lemma BlockFits(nrSv: seq<nat>, c: nat)
    requires c < |nrSv|
    ensures Start(nrSv, c + 1) == Start(nrSv, c) + nrSv[c] <= Start(nrSv, |nrSv|)
  {
    StartMonotone(nrSv, c + 1, |nrSv|);
  }

  /** What support vector s adds to the decision between classes i and j: nothing unless it is one of theirs. */
  ghost function VoteOf(m: SvmModel, kv: seq<real>, i: nat, j: nat, s: int): real
    requires m.Grouped() && |kv| == |m.svCoef| && i < j < m.nrClass
  {
    if !(0 <= s < |kv|) then 0.0
    else if InBlock(m.nrSv, i, s) then m.svCoef[s][j - 1] * kv[s]
    else if InBlock(m.nrSv, j, s) then m.svCoef[s][i] * kv[s]
    else 0.0
  }

  ghost function Vote(m: SvmModel, kv: seq<real>, i: nat, j: nat): Vec
    requires m.Grouped() && |kv| == |m.svCoef| && i < j < m.nrClass
  {
    s => VoteOf(m, kv, i, j, s)
  }

  /** The decision value of a pair: every support vector's vote, less the pair's own threshold. */
  ghost function Decision(m: SvmModel, kv: seq<real>, i: nat, j: nat): real
    requires m.Valid() && |kv| == |m.svCoef| && i < j < m.nrClass
  {
    RowStartMonotone(m.nrClass, i + 1, m.nrClass);
    Sum(|kv|, Vote(m, kv, i, j)) - m.rho[PairIndex(m.nrClass, i, j)]
  }

  lemma {:induction false} SumSkips(lo: nat, hi: nat, f: Vec)
    requires lo <= hi
    requires forall i :: lo <= i < hi ==> f(i) == 0.0
    ensures Sum(hi, f) == Sum(lo, f)
  {
    if lo < hi {
      SumSkips(lo, hi - 1, f);
    }
  }

  /** Support vectors of neither class have no vote. */
  lemma NoVotes(m: SvmModel, kv: seq<real>, i: nat, j: nat, lo: nat, hi: nat)
    requires m.Grouped() && |kv| == |m.svCoef| && i < j < m.nrClass && lo <= hi <= |kv|
    requires hi <= Start(m.nrSv, i) || Start(m.nrSv, i + 1) <= lo
    requires hi <= Start(m.nrSv, j) || Start(m.nrSv, j + 1) <= lo
    ensures Sum(hi, Vote(m, kv, i, j)) == Sum(lo, Vote(m, kv, i, j))
  {
    SumSkips(lo, hi, Vote(m, kv, i, j));
  }

  lemma VotesBefore(m: SvmModel, kv: seq<real>, i: nat, j: nat)
    requires m.Grouped() && |kv| == |m.svCoef| && i < j < m.nrClass
    ensures Start(m.nrSv, i) <= |kv| && Sum(Start(m.nrSv, i), Vote(m, kv, i, j)) == 0.0
  {
    StartMonotone(m.nrSv, i, j);
    StartMonotone(m.nrSv, j, m.nrClass);
    NoVotes(m, kv, i, j, 0, Start(m.nrSv, i));
  }

  lemma VotesBetween(m: SvmModel, kv: seq<real>, i: nat, j: nat)
    requires m.Grouped() && |kv| == |m.svCoef| && i < j < m.nrClass
    ensures Start(m.nrSv, i + 1) <= Start(m.nrSv, j) <= |kv|
    ensures Sum(Start(m.nrSv, j), Vote(m, kv, i, j)) == Sum(Start(m.nrSv, i + 1), Vote(m, kv, i, j))
  {
    StartMonotone(m.nrSv, i + 1, j);
    StartMonotone(m.nrSv, j, m.nrClass);
    NoVotes(m, kv, i, j, Start(m.nrSv, i + 1), Start(m.nrSv, j));
  }

  lemma VotesAfter(m: SvmModel, kv: seq<real>, i: nat, j: nat)
    requires m.Grouped() && |kv| == |m.svCoef| && i < j < m.nrClass
    ensures Start(m.nrSv, j + 1) <= |kv|
    ensures Sum(|kv|, Vote(m, kv, i, j)) == Sum(Start(m.nrSv, j + 1), Vote(m, kv, i, j))
  {
    StartMonotone(m.nrSv, i + 1, j + 1);
    StartMonotone(m.nrSv, j + 1, m.nrClass);
    NoVotes(m, kv, i, j, Start(m.nrSv, j + 1), |kv|);
  }

  /** f holds coefficient c of each support vector in a block, times its kernel. */
  ghost predicate BlockVotes(m: SvmModel, kv: seq<real>, lo: nat, count: nat, c: nat, f: Vec)
    requires m.Grouped() && |kv| == |m.svCoef| && lo + count <= |kv| && c + 1 < m.nrClass
  {
    forall n :: lo <= n < lo + count ==> f(n) == m.svCoef[n][c] * kv[n]
  }

  lemma FirstBlockVotes(m: SvmModel, kv: seq<real>, i: nat, j: nat, lo: nat, count: nat)
    requires m.Grouped() && |kv| == |m.svCoef| && i < j < m.nrClass
    requires lo == Start(m.nrSv, i) && lo + count == Start(m.nrSv, i + 1) <= |kv|
    ensures BlockVotes(m, kv, lo, count, j - 1, Vote(m, kv, i, j))
  {
  }

  lemma SecondBlockVotes(m: SvmModel, kv: seq<real>, i: nat, j: nat, lo: nat, count: nat)
    requires m.Grouped() && |kv| == |m.svCoef| && i < j < m.nrClass
    requires lo == Start(m.nrSv, j) && lo + count == Start(m.nrSv, j + 1) <= |kv|
    ensures BlockVotes(m, kv, lo, count, i, Vote(m, kv, i, j))
  {
    StartMonotone(m.nrSv, i + 1, j);
  }

  /** One class's block: coefficient c of its support vectors times their kernels. */
  method BlockSum(m: SvmModel, kv: seq<real>, lo: nat, count: nat, c: nat, ghost f: Vec) returns (s: real)
    requires m.Grouped() && |kv| == |m.svCoef| && lo + count <= |kv| && c + 1 < m.nrClass
    requires BlockVotes(m, kv, lo, count, c, f)
    ensures Sum(lo, f) + s == Sum(lo + count, f)
  {
    s := 0.0;
    for n := 0 to count
      invariant Sum(lo, f) + s == Sum(lo + n, f)
    {
      s := s + m.svCoef[lo + n][c] * kv[lo + n];
    }
  }

  /** The two block sums of one pair. */
  method PairSum(m: SvmModel, kv: seq<real>, si: nat, sj: nat, i: nat, j: nat) returns (s: real)
    requires m.Grouped() && |kv| == |m.svCoef| && i < j < m.nrClass
    requires si == Start(m.nrSv, i) && sj == Start(m.nrSv, j)
    ensures s == Sum(|kv|, Vote(m, kv, i, j))
  {
    hide Vote;
    hide Sum;
    hide Start;
    hide BlockVotes;
    var ci, cj := m.nrSv[i], m.nrSv[j];
    BlockFits(m.nrSv, i);
    BlockFits(m.nrSv, j);
    VotesBefore(m, kv, i, j);
    VotesBetween(m, kv, i, j);
    VotesAfter(m, kv, i, j);
    FirstBlockVotes(m, kv, i, j, si, ci);
    SecondBlockVotes(m, kv, i, j, sj, cj);
    var first := BlockSum(m, kv, si, ci, j - 1, Vote(m, kv, i, j));
    var second := BlockSum(m, kv, sj, cj, i, Vote(m, kv, i, j));
    s := first + second;
  }

  method BlockStarts(nrSv: seq<nat>) returns (start: seq<nat>)
    ensures |start| == |nrSv|
    ensures forall c :: 0 <= c < |nrSv| ==> start[c] == Start(nrSv, c)
  {
    start := [];
    var acc := 0;
    for c := 0 to |nrSv|
      invariant acc == Start(nrSv, c) && |start| == c
      invariant forall d :: 0 <= d < c ==> start[d] == Start(nrSv, d)
    {
      start := start + [acc];
      acc := acc + nrSv[c];
    }
  }

  ghost predicate Decided(m: SvmModel, kv: seq<real>, out: seq<real>, i: nat, j: nat)
    requires m.Valid() && |kv| == |m.svCoef| && i < j < m.nrClass
  {
    PairIndex(m.nrClass, i, j) < |out| && out[PairIndex(m.nrClass, i, j)] == Decision(m, kv, i, j)
  }

  /** One decision value per class pair, in the order of `PairIndex`. */
  method DecisionValues(m: SvmModel, kv: seq<real>) returns (out: seq<real>)
    requires m.Valid() && |kv| == |m.svCoef|
    ensures |out| == RowStart(m.nrClass, m.nrClass)
    ensures forall i, j :: 0 <= i < j < m.nrClass ==> Decided(m, kv, out, i, j)
  {
    var start := BlockStarts(m.nrSv);
    out := [];
    var p := 0;
    for i := 0 to m.nrClass
      invariant p == |out| == RowStart(m.nrClass, i)
      invariant forall a, b :: 0 <= a < i && a < b < m.nrClass ==> Decided(m, kv, out, a, b)
    {
      for j := i + 1 to m.nrClass
        invariant p == |out| == RowStart(m.nrClass, i) + (j - i - 1)
        invariant forall a, b :: 0 <= a < i && a < b < m.nrClass ==> Decided(m, kv, out, a, b)
        invariant forall b :: i < b < j ==> Decided(m, kv, out, i, b)
      {
        RowStartMonotone(m.nrClass, i + 1, m.nrClass);
        var s := PairSum(m, kv, start[i], start[j], i, j);
        out := AppendDecision(m, kv, out, i, j, s - m.rho[p]);
        p := p + 1;
      }
    }
  }

  /** Appending the next pair's decision keeps the ones already there. */
  function AppendDecision(m: SvmModel, kv: seq<real>, out: seq<real>, i: nat, j: nat, d: real): (out': seq<real>)
    requires m.Valid() && |kv| == |m.svCoef| && i < j < m.nrClass
    requires |out| == PairIndex(m.nrClass, i, j) && d == Decision(m, kv, i, j)
    ensures |out'| == |out| + 1 && Decided(m, kv, out', i, j)
    ensures forall a, b :: 0 <= a < b < m.nrClass && Decided(m, kv, out, a, b) ==> Decided(m, kv, out', a, b)
  {
    out + [d]
  }

  /** The decision of a two-class model: every vector's one coefficient, less the one threshold. */
  method DecisionBinary(m: SvmModel, kv: seq<real>) returns (d: real)
    requires m.Valid() && |kv| == |m.svCoef| && m.nrClass == 2
    ensures d == Decision(m, kv, 0, 1)
  {
    d := 0.0;
    for s := 0 to |kv|
      invariant d == Sum(s, Vote(m, kv, 0, 1))
    {
      assert Start(m.nrSv, 2) == Start(m.nrSv, 1) + m.nrSv[1];
      assert InBlock(m.nrSv, 0, s) || InBlock(m.nrSv, 1, s);
      d := d + m.svCoef[s][0] * kv[s];
    }
    RowStartClosed(2, 2);
    assert PairIndex(2, 0, 1) == 0;
    d := d - m.rho[0];
  }

  // -------------------------------------------------------------- probabilities

  /** What is used of the exponential function. */
  ghost predicate IsExponential(exp: real -> real)
  {
    forall x :: exp(x) > 0.0 && exp(x) * exp(-x) == 1.0
  }

  function Sigmoid(exp: real -> real, f: real): real
    requires exp(-f) > 0.0 && exp(f) > 0.0
  {
    if f >= 0.0 then exp(-f) / (1.0 + exp(-f)) else 1.0 / (1.0 + exp(f))
  }

  /** Platt's sigmoid, in one form for every argument. */
  ghost function Platt(exp: real -> real, f: real): real
    requires IsExponential(exp)
  {
    1.0 / (1.0 + exp(f))
  }

  /** The two branches of the sigmoid are one function, strictly between 0 and 1. */
  lemma SigmoidBranchesAgree(exp: real -> real, f: real)
    requires IsExponential(exp)
    ensures exp(-f) > 0.0 && exp(f) > 0.0
    ensures Sigmoid(exp, f) == Platt(exp, f)
    ensures 0.0 < Sigmoid(exp, f) < 1.0
  {
    var u, v := exp(f), exp(-f);
    assert u > 0.0 && v > 0.0 && u * v == 1.0;
    SigmoidAlgebra(u, v);
  }

  lemma SigmoidAlgebra(u: real, v: real)
    requires u > 0.0 && v > 0.0 && u * v == 1.0
    ensures v / (1.0 + v) == 1.0 / (1.0 + u)
    ensures 0.0 < 1.0 / (1.0 + u) < 1.0
  {
    var y := 1.0 / (1.0 + u);
    QuotientTimes(1.0, 1.0 + u);
    assert y * (1.0 + u) == 1.0;
    Distribute(y, 1.0, u);
    assert v * (y * (1.0 + u)) == v;
    assert y * (1.0 + v) == v;
    Ratio(v, 1.0 + v, y);
    ProductSign(y, u);
  }

  /** The sigmoid falls where the exponential rises. */
  lemma PlattFalls(exp: real -> real, f: real, g: real)
    requires IsExponential(exp) && exp(f) <= exp(g)
    ensures Platt(exp, g) <= Platt(exp, f)
  {
    var u, v := 1.0 + exp(f), 1.0 + exp(g);
    QuotientTimes(1.0, u);
    QuotientTimes(1.0, v);
    ReciprocalFalls(u, v, 1.0 / u, 1.0 / v);
  }

  lemma ReciprocalFalls(u: real, v: real, x: real, y: real)
    requires 0.0 < u <= v && x * u == 1.0 && y * v == 1.0
    ensures y <= x
  {
    if y > x {
      ProductSign(y - x, u);
      ProductSign(v - u, y);
    }
  }

  const FLOOR := 0.0000001

  /** min(max(v, 1e-7), 1 - 1e-7) */
  function Clamp(v: real): (c: real)
    ensures FLOOR <= c <= 1.0 - FLOOR
    ensures FLOOR <= v <= 1.0 - FLOOR ==> c == v
  {
    var w := if v > FLOOR then v else FLOOR;
    if w < 1.0 - FLOOR then w else 1.0 - FLOOR
  }

  /** x is Platt's sigmoid of f, kept 1e-7 away from 0 and from 1. */
  ghost predicate Clamped(exp: real -> real, f: real, x: real)
    requires IsExponential(exp)
  {
    var v := Platt(exp, f);
    x == if v < 0.0000001 then 0.0000001 else if v > 0.9999999 then 0.9999999 else v
  }

  /** A larger value never has the larger clamped sigmoid. */
  lemma ClampedFalls(exp: real -> real, f: real, x: real, g: real, y: real)
    requires IsExponential(exp) && exp(f) <= exp(g) && Clamped(exp, f, x) && Clamped(exp, g, y)
    ensures y <= x
  {
    PlattFalls(exp, f, g);
  }

  /** The clamped pairwise probability of class i against class j, both ways round. */
  ghost predicate IsPairwiseTable(m: SvmModel, exp: real -> real, dec: seq<real>, r: Table)
    requires IsExponential(exp) && m.Valid() && |dec| == RowStart(m.nrClass, m.nrClass)
  {
    && |r| == m.nrClass && (forall i :: 0 <= i < m.nrClass ==> |r[i]| == m.nrClass)
    && forall i, j :: 0 <= i < j < m.nrClass ==> PairEntry(m, exp, dec, r[i][j], r[j][i], i, j)
  }

  lemma ClampedSigmoid(exp: real -> real, f: real)
    requires IsExponential(exp) && Sigmoid(exp, f) == Platt(exp, f)
    ensures Clamped(exp, f, Clamp(Sigmoid(exp, f)))
  {
    hide Platt;
    hide Sigmoid;
  }

  /** The clamped sigmoid of the decision at position p. */
  function PairProbability(m: SvmModel, exp: real -> real, dec: seq<real>, p: nat): (v: real)
    requires IsExponential(exp) && m.Valid() && |dec| == RowStart(m.nrClass, m.nrClass) && p < |dec|
    ensures Clamped(exp, dec[p] * m.probA[p] + m.probB[p], v)
  {
    SigmoidBranchesAgree(exp, dec[p] * m.probA[p] + m.probB[p]);
    ClampedSigmoid(exp, dec[p] * m.probA[p] + m.probB[p]);
    Clamp(Sigmoid(exp, dec[p] * m.probA[p] + m.probB[p]))
  }

  /** x is the clamped sigmoid of a decision d at position p, and y what is left of 1. */
  ghost predicate EntryAt(m: SvmModel, exp: real -> real, d: real, p: nat, x: real, y: real)
    requires IsExponential(exp) && p < |m.probA| && p < |m.probB|
  {
    Clamped(exp, d * m.probA[p] + m.probB[p], x) && y == 1.0 - x
  }

  ghost predicate PairEntry(m: SvmModel, exp: real -> real, dec: seq<real>, x: real, y: real, i: nat, j: nat)
    requires IsExponential(exp) && m.Valid() && |dec| == RowStart(m.nrClass, m.nrClass) && i < j < m.nrClass
  {
    RowStartMonotone(m.nrClass, i + 1, m.nrClass);
    var p := PairIndex(m.nrClass, i, j);
    EntryAt(m, exp, dec[p], p, x, y)
  }

  lemma PairEntryHolds(m: SvmModel, exp: real -> real, dec: seq<real>, i: nat, j: nat, v: real)
    requires IsExponential(exp) && m.Valid() && |dec| == RowStart(m.nrClass, m.nrClass) && i < j < m.nrClass
    requires RowStart(m.nrClass, i) + (j - i - 1) < |dec|
    requires v == PairProbability(m, exp, dec, RowStart(m.nrClass, i) + (j - i - 1))
    ensures PairEntry(m, exp, dec, v, 1.0 - v, i, j)
  {
    var p := PairIndex(m.nrClass, i, j);
    assert EntryAt(m, exp, dec[p], p, PairProbability(m, exp, dec, p), 1.0 - PairProbability(m, exp, dec, p)) by {
      EntryThere(m, exp, dec, p);
    }
    hide EntryAt;
    hide PairProbability;
  }

  lemma EntryThere(m: SvmModel, exp: real -> real, dec: seq<real>, p: nat)
    requires IsExponential(exp) && m.Valid() && |dec| == RowStart(m.nrClass, m.nrClass) && p < |dec|
    ensures EntryAt(m, exp, dec[p], p, PairProbability(m, exp, dec, p), 1.0 - PairProbability(m, exp, dec, p))
  {
    var f := dec[p] * m.probA[p] + m.probB[p];
    SigmoidBranchesAgree(exp, f);
    assert PairProbability(m, exp, dec, p) == Clamp(Sigmoid(exp, f));
    ClampedSigmoid(exp, f);
    hide Clamp;
    hide Sigmoid;
    hide Clamped;
  }

  /** r with the entries of one pair set. */
  function WithPair(k: nat, r: Table, i: nat, j: nat, v: real): (r': Table)
    requires |r| == k && (forall a :: 0 <= a < k ==> |r[a]| == k) && i < j < k
    ensures |r'| == k && forall a :: 0 <= a < k ==> |r'[a]| == k
    ensures r'[i][j] == v && r'[j][i] == 1.0 - v
    ensures forall a, b :: 0 <= a < k && 0 <= b < k && (a, b) != (i, j) && (a, b) != (j, i) ==> r'[a][b] == r[a][b]
  {
    var r1 := r[i := r[i][j := v]];
    r1[j := r1[j][i := 1.0 - v]]
  }

  /** The table filled in for the rows before i, and in row i for the columns before j. */
  ghost predicate FilledTo(m: SvmModel, exp: real -> real, dec: seq<real>, r: Table, i: nat, j: nat)
    requires IsExponential(exp) && m.Valid() && |dec| == RowStart(m.nrClass, m.nrClass)
  {
    && |r| == m.nrClass && (forall a :: 0 <= a < m.nrClass ==> |r[a]| == m.nrClass)
    && forall a, b :: 0 <= a < b < m.nrClass && (a < i || (a == i && b < j)) ==>
         PairEntry(m, exp, dec, r[a][b], r[b][a], a, b)
  }

  lemma FilledStep(m: SvmModel, exp: real -> real, dec: seq<real>, r: Table, i: nat, j: nat, v: real)
    requires IsExponential(exp) && m.Valid() && |dec| == RowStart(m.nrClass, m.nrClass)
    requires FilledTo(m, exp, dec, r, i, j) && i < j < m.nrClass && PairEntry(m, exp, dec, v, 1.0 - v, i, j)
    ensures FilledTo(m, exp, dec, WithPair(m.nrClass, r, i, j, v), i, j + 1)
  {
    hide PairEntry;
    hide WithPair;
  }

  lemma NextRow(m: SvmModel, exp: real -> real, dec: seq<real>, r: Table, i: nat)
    requires IsExponential(exp) && m.Valid() && |dec| == RowStart(m.nrClass, m.nrClass) && i < m.nrClass
    requires FilledTo(m, exp, dec, r, i, m.nrClass)
    ensures FilledTo(m, exp, dec, r, i + 1, i + 2)
  {
    hide PairEntry;
  }

  /** The table of `probability`: the counter meets each pair where `DecisionValues` put it. */
  method PairwiseTable(m: SvmModel, exp: real -> real, dec: seq<real>) returns (r: Table)
    requires IsExponential(exp) && m.Valid() && |dec| == RowStart(m.nrClass, m.nrClass)
    ensures IsPairwiseTable(m, exp, dec, r)
  {
    hide PairEntry;
    hide WithPair;
    var k := m.nrClass;
    r := seq(k, _ => seq(k, _ => 0.0));
    var p := 0;
    for i := 0 to k
      invariant p == RowStart(k, i) && FilledTo(m, exp, dec, r, i, i + 1)
    {
      for j := i + 1 to k
        invariant p == RowStart(k, i) + (j - i - 1) && FilledTo(m, exp, dec, r, i, j)
      {
        hide FilledTo;
        RowStartMonotone(k, i + 1, k);
        var v := PairProbability(m, exp, dec, p);
        PairEntryHolds(m, exp, dec, i, j, v);
        FilledShape(m, exp, dec, r, i, j);
        FilledStep(m, exp, dec, r, i, j, v);
        r := WithPair(k, r, i, j, v);
        p := p + 1;
      }
      NextRow(m, exp, dec, r, i);
    }
  }

  lemma FilledShape(m: SvmModel, exp: real -> real, dec: seq<real>, r: Table, i: nat, j: nat)
    requires IsExponential(exp) && m.Valid() && |dec| == RowStart(m.nrClass, m.nrClass)
    requires FilledTo(m, exp, dec, r, i, j)
    ensures |r| == m.nrClass && forall a :: 0 <= a < m.nrClass ==> |r[a]| == m.nrClass
  {
  }

  lemma EntryBounds(m: SvmModel, exp: real -> real, dec: seq<real>, x: real, y: real, i: nat, j: nat)
    requires IsExponential(exp) && m.Valid() && |dec| == RowStart(m.nrClass, m.nrClass) && i < j < m.nrClass
    requires PairEntry(m, exp, dec, x, y, i, j)
    ensures x + y == 1.0 && FLOOR <= x <= 1.0 - FLOOR && FLOOR <= y <= 1.0 - FLOOR
  {
    RowStartMonotone(m.nrClass, i + 1, m.nrClass);
  }

  lemma TableEntry(m: SvmModel, exp: real -> real, dec: seq<real>, r: Table, i: nat, j: nat)
    requires IsExponential(exp) && m.Valid() && |dec| == RowStart(m.nrClass, m.nrClass)
    requires IsPairwiseTable(m, exp, dec, r) && i < m.nrClass && j < m.nrClass && i != j
    ensures r[i][j] + r[j][i] == 1.0 && FLOOR <= r[i][j] <= 1.0 - FLOOR
  {
    if i < j {
      EntryBounds(m, exp, dec, r[i][j], r[j][i], i, j);
    } else {
      EntryBounds(m, exp, dec, r[j][i], r[i][j], j, i);
    }
  }

  /**
   Clamping makes every off-diagonal entry positive, as the solver needs, and keeps the two entries of a
   pair complementary.
   */
  lemma TableIsPairwise(m: SvmModel, exp: real -> real, dec: seq<real>, r: Table)
    requires IsExponential(exp) && m.Valid() && |dec| == RowStart(m.nrClass, m.nrClass)
    requires IsPairwiseTable(m, exp, dec, r)
    ensures Pairwise(m.nrClass, r)
    ensures forall i, j :: 0 <= i < m.nrClass && 0 <= j < m.nrClass && i != j ==> r[i][j] + r[j][i] == 1.0
    ensures forall i, j :: 0 <= i < m.nrClass && 0 <= j < m.nrClass && i != j ==> FLOOR <= r[i][j] <= 1.0 - FLOOR
  {
    forall i, j | 0 <= i < m.nrClass && 0 <= j < m.nrClass && i != j
      ensures FLOOR <= r[i][j] <= 1.0 - FLOOR
    {
      TableEntry(m, exp, dec, r, i, j);
    }
    forall i, j | 0 <= i < m.nrClass && 0 <= j < m.nrClass && i != j ensures r[i][j] + r[j][i] == 1.0 {
      TableEntry(m, exp, dec, r, i, j);
    }
  }

  /** Two classes: Platt's sigmoid of the one decision value. */
  method ProbabilityBinary(m: SvmModel, exp: real -> real, kv: seq<real>) returns (probs: seq<real>)
    requires IsExponential(exp) && m.Valid() && |kv| == |m.svCoef| && m.nrClass == 2
    ensures |m.probA| > 0 && |m.probB| > 0 && Distribution(2, probs)
    ensures probs[0] == Platt(exp, Decision(m, kv, 0, 1) * m.probA[0] + m.probB[0]) && probs[1] == 1.0 - probs[0]
  {
    hide Decision;
    hide Distribution;
    RowStartClosed(2, 2);
    var d := DecisionBinary(m, kv);
    SigmoidBranchesAgree(exp, d * m.probA[0] + m.probB[0]);
    var p0 := Sigmoid(exp, d * m.probA[0] + m.probB[0]);
    probs := [p0, 1.0 - p0];
    TwoClasses(p0);
  }

  lemma TwoClasses(p: real)
    requires 0.0 < p < 1.0
    ensures Distribution(2, [p, 1.0 - p])
  {
    var probs := [p, 1.0 - p];
    assert Sum(2, At(probs)) == Sum(1, At(probs)) + At(probs)(1);
    assert Sum(1, At(probs)) == Sum(0, At(probs)) + At(probs)(0);
  }

  /** Each pair's two entries are the clamped sigmoid of its own decision and what is left of 1. */
  ghost predicate Coupled(m: SvmModel, exp: real -> real, kv: seq<real>, r: Table)
    requires IsExponential(exp) && m.Valid() && |kv| == |m.svCoef|
  {
    && |r| == m.nrClass && (forall i :: 0 <= i < m.nrClass ==> |r[i]| == m.nrClass)
    && forall i, j :: 0 <= i < j < m.nrClass ==> PairCoupled(m, exp, kv, r[i][j], r[j][i], i, j)
  }

  ghost predicate PairCoupled(m: SvmModel, exp: real -> real, kv: seq<real>, x: real, y: real, i: nat, j: nat)
    requires IsExponential(exp) && m.Valid() && |kv| == |m.svCoef| && i < j < m.nrClass
  {
    RowStartMonotone(m.nrClass, i + 1, m.nrClass);
    EntryAt(m, exp, Decision(m, kv, i, j), PairIndex(m.nrClass, i, j), x, y)
  }

  lemma TableCoupled(m: SvmModel, exp: real -> real, kv: seq<real>, dec: seq<real>, r: Table)
    requires IsExponential(exp) && m.Valid() && |kv| == |m.svCoef| && |dec| == RowStart(m.nrClass, m.nrClass)
    requires IsPairwiseTable(m, exp, dec, r)
    requires forall i, j :: 0 <= i < j < m.nrClass ==> Decided(m, kv, dec, i, j)
    ensures Coupled(m, exp, kv, r)
  {
    hide PairEntry;
    hide PairCoupled;
    hide Decided;
    forall i, j | 0 <= i < j < m.nrClass ensures PairCoupled(m, exp, kv, r[i][j], r[j][i], i, j) {
      EntryCoupled(m, exp, kv, dec, r[i][j], r[j][i], i, j);
    }
  }

  lemma EntryCoupled(m: SvmModel, exp: real -> real, kv: seq<real>, dec: seq<real>, x: real, y: real, i: nat, j: nat)
    requires IsExponential(exp) && m.Valid() && |kv| == |m.svCoef| && |dec| == RowStart(m.nrClass, m.nrClass)
    requires i < j < m.nrClass && Decided(m, kv, dec, i, j) && PairEntry(m, exp, dec, x, y, i, j)
    ensures PairCoupled(m, exp, kv, x, y, i, j)
  {
    hide EntryAt;
    hide Decision;
    RowStartMonotone(m.nrClass, i + 1, m.nrClass);
  }

  /** More classes: the pairwise table of their decision values, coupled. */
  method ProbabilityMany(m: SvmModel, exp: real -> real, kv: seq<real>)
    returns (probs: seq<real>, ghost dec: seq<real>, ghost r: Table)
    requires IsExponential(exp) && m.Valid() && |kv| == |m.svCoef|
    ensures Distribution(m.nrClass, probs) && Distribution(m.nrClass, Uniform(m.nrClass))
    ensures |dec| == RowStart(m.nrClass, m.nrClass)
    ensures forall i, j :: 0 <= i < j < m.nrClass ==> Decided(m, kv, dec, i, j)
    ensures IsPairwiseTable(m, exp, dec, r) && Pairwise(m.nrClass, r)
    ensures Coupled(m, exp, kv, r)
    ensures probs == Solve(m.nrClass, r, Uniform(m.nrClass), 100)
  {
    hide Distribution;
    hide Solve;
    hide Pairwise;
    hide IsPairwiseTable;
    hide Decided;
    hide RowStart;
    UniformIsDistribution(m.nrClass);
    var values := DecisionValues(m, kv);
    var table := PairwiseTable(m, exp, values);
    dec, r := values, table;
    TableIsPairwise(m, exp, values, table);
    TableCoupled(m, exp, kv, values, table);
    probs := MulticlassProbability(m.nrClass, table, 100);
  }

  /** Platt's sigmoid for two classes; for more, the coupling of the pairs' clamped sigmoids. */
  ghost predicate Predicted(m: SvmModel, exp: real -> real, kv: seq<real>, probs: seq<real>)
    requires IsExponential(exp) && m.Valid() && |kv| == |m.svCoef|
  {
    if m.nrClass == 2 then
      |m.probA| > 0 && |m.probB| > 0
      && var p := Platt(exp, Decision(m, kv, 0, 1) * m.probA[0] + m.probB[0]); probs == [p, 1.0 - p]
    else
      exists r :: Coupled(m, exp, kv, r) && SolvedFrom(m.nrClass, r, probs)
  }

  /** A hundred sweeps from the uniform start. */
  ghost predicate SolvedFrom(k: nat, r: Table, probs: seq<real>)
  {
    k >= 2 && Pairwise(k, r) && Distribution(k, Uniform(k)) && probs == Solve(k, r, Uniform(k), 100)
  }

  lemma BinaryPredicted(m: SvmModel, exp: real -> real, kv: seq<real>, probs: seq<real>)
    requires IsExponential(exp) && m.Valid() && |kv| == |m.svCoef| && m.nrClass == 2
    requires |m.probA| > 0 && |m.probB| > 0 && |probs| == 2
    requires probs[0] == Platt(exp, Decision(m, kv, 0, 1) * m.probA[0] + m.probB[0]) && probs[1] == 1.0 - probs[0]
    ensures Predicted(m, exp, kv, probs)
  {
    var p := Platt(exp, Decision(m, kv, 0, 1) * m.probA[0] + m.probB[0]);
    assert probs == [p, 1.0 - p];
  }

  lemma ManyPredicted(m: SvmModel, exp: real -> real, kv: seq<real>, r: Table, probs: seq<real>)
    requires IsExponential(exp) && m.Valid() && |kv| == |m.svCoef| && m.nrClass != 2
    requires Coupled(m, exp, kv, r) && SolvedFrom(m.nrClass, r, probs)
    ensures Predicted(m, exp, kv, probs)
  {
    hide Coupled;
    hide SolvedFrom;
    hide IsExponential;
  }

  /** The probabilities of a model's classes, a strictly positive distribution for every kernel vector. */
  method Probability(m: SvmModel, exp: real -> real, kv: seq<real>) returns (probs: seq<real>)
    requires IsExponential(exp) && m.Valid() && |kv| == |m.svCoef|
    ensures Distribution(m.nrClass, probs) && Predicted(m, exp, kv, probs)
  {
    hide Distribution;
    hide Coupled;
    hide Decision;
    hide Platt;
    hide Solve;
    hide Pairwise;
    hide Predicted;
    hide IsExponential;
    if m.nrClass == 2 {
      probs := ProbabilityBinary(m, exp, kv);
      LengthOf(2, probs);
      BinaryPredicted(m, exp, kv, probs);
    } else {
      ghost var dec, r;
      probs, dec, r := ProbabilityMany(m, exp, kv);
      ManyPredicted(m, exp, kv, r, probs);
    }
  }

  lemma LengthOf(k: nat, probs: seq<real>)
    requires Distribution(k, probs)
    ensures |probs| == k
  {
  }

  // -------------------------------------------------------------------- kernels

  /** A sparse support vector: 1-based indices and values, no index twice. */
  type Sparse = seq<(int, real)>

  ghost predicate Distinct(sv: Sparse)
  {
    forall a, b :: 0 <= a < b < |sv| ==> sv[a].0 != sv[b].0
  }

  /** The component of a sparse vector at a 1-based index. */
  ghost function Component(sv: Sparse, n: int): real
  {
    if sv == [] then 0.0 else if sv[0].0 == n then sv[0].1 else Component(sv[1..], n)
  }

  /** The component of the dense vector at a 1-based index, zero past its end. */
  function Dense(x: seq<real>, n: int): real
  {
    if 1 <= n <= |x| then x[n - 1] else 0.0
  }

  lemma {:induction false} ComponentAt(sv: Sparse, a: nat)
    requires a < |sv| && Distinct(sv)
    ensures Component(sv, sv[a].0) == sv[a].1
  {
    if a > 0 {
      assert sv[0].0 != sv[a].0;
      ComponentAt(sv[1..], a - 1);
    }
  }

  lemma {:induction false} ComponentAbsent(sv: Sparse, n: int)
    requires forall a :: 0 <= a < |sv| ==> sv[a].0 != n
    ensures Component(sv, n) == 0.0
  {
    if sv != [] {
      assert sv[0].0 != n;
      ComponentAbsent(sv[1..], n);
    }
  }

  /** The terms of |sv - x|^2 over the 1-based indices up to a dimension, as a vector from 0. */
  ghost function Difference(sv: Sparse, x: seq<real>): Vec
  {
    i => Square(Component(sv, i + 1) - Dense(x, i + 1))
  }

  ghost function Overlap(sv: Sparse, x: seq<real>): Vec
  {
    i => Component(sv, i + 1) * Dense(x, i + 1)
  }

  /** f restricted to the indices the first n entries of sv name. */
  ghost function Named(sv: Sparse, n: nat, f: Vec): Vec
    requires n <= |sv|
  {
    i => if exists a :: 0 <= a < n && sv[a].0 == i + 1 then f(i) else 0.0
  }

  lemma NamedStep(sv: Sparse, n: nat, f: Vec, dim: nat)
    requires Distinct(sv) && n < |sv| && 1 <= sv[n].0 <= dim
    ensures Sum(dim, Named(sv, n + 1, f)) == Sum(dim, Named(sv, n, f)) + f(sv[n].0 - 1)
  {
    var at := sv[n].0 - 1;
    var added: Vec := i => if i == at then f(at) else 0.0;
    SumSingle(dim, at, added);
    forall i | 0 <= i < dim
      ensures Named(sv, n + 1, f)(i) == 1.0 * Named(sv, n, f)(i) + 1.0 * added(i)
    {
      if i == at {
        assert sv[n].0 == i + 1;
      } else if exists a :: 0 <= a < n && sv[a].0 == i + 1 {
        var a :| 0 <= a < n && sv[a].0 == i + 1;
        assert 0 <= a < n + 1;
      }
    }
    SumLinear(dim, 1.0, Named(sv, n, f), 1.0, added, Named(sv, n + 1, f));
  }

  ghost predicate Indexed(sv: Sparse, dim: nat)
  {
    forall a :: 0 <= a < |sv| ==> 1 <= sv[a].0 <= dim
  }

  /** f at the indices no entry of sv names. */
  ghost function Unnamed(sv: Sparse, f: Vec): Vec
  {
    i => if IsNamed(sv, i + 1) then 0.0 else f(i)
  }

  /** An index no entry names contributes the dense component alone, and nothing past the dense end. */
  lemma UnnamedAt(sv: Sparse, x: seq<real>, i: nat)
    ensures Unnamed(sv, Difference(sv, x))(i) == if IsNamed(sv, i + 1) then 0.0 else Square(Dense(x, i + 1))
  {
    if !IsNamed(sv, i + 1) {
      ComponentAbsent(sv, i + 1);
      NegatedSquare(Dense(x, i + 1));
    }
  }

  lemma NegatedSquare(d: real)
    ensures Square(0.0 - d) == Square(d)
  {
  }

  ghost predicate IsNamed(sv: Sparse, n: int)
  {
    exists a :: 0 <= a < |sv| && sv[a].0 == n
  }

  /** The sparse half of the sum, and the indices it saw. */
  method NamedDistance(sv: Sparse, x: seq<real>, ghost dim: nat) returns (s: real, seen: set<int>)
    requires Distinct(sv) && Indexed(sv, dim)
    ensures s == Sum(dim, Named(sv, |sv|, Difference(sv, x)))
    ensures forall n :: n in seen <==> IsNamed(sv, n)
  {
    s := 0.0;
    seen := {};
    ghost var f := Difference(sv, x);
    SumConstant(dim, 0.0, Named(sv, 0, f));
    for n := 0 to |sv|
      invariant s == Sum(dim, Named(sv, n, f))
      invariant forall k :: k in seen <==> exists a :: 0 <= a < n && sv[a].0 == k
    {
      var (k, v) := sv[n];
      ComponentAt(sv, n);
      NamedStep(sv, n, f, dim);
      s := s + Square(v - Dense(x, k));
      seen := seen + {k};
    }
  }

  /**
   ||u - v||^2 over the union of the indices, as the RBF kernel adds it up: the sparse entries first,
   then the dense ones no entry named. It is the dense squared distance in any dimension that holds both.
   */
  method SquaredDistance(sv: Sparse, x: seq<real>, ghost dim: nat) returns (s: real)
    requires Distinct(sv) && Indexed(sv, dim) && |x| <= dim
    ensures s == Sum(dim, Difference(sv, x))
  {
    hide Difference;
    hide Unnamed;
    hide Named;
    hide Distinct;
    hide Indexed;
    hide IsNamed;
    ghost var rest := Unnamed(sv, Difference(sv, x));
    var total, seen := NamedDistance(sv, x, dim);
    s := total;
    for k := 1 to |x| + 1
      invariant s == total + Sum(k - 1, rest)
    {
      UnnamedAt(sv, x, k - 1);
      if k !in seen {
        s := s + Square(x[k - 1]);
      }
    }
    NothingBeyond(sv, x, dim);
    NamedAndUnnamed(sv, Difference(sv, x), dim);
  }

  lemma NamedAndUnnamed(sv: Sparse, f: Vec, dim: nat)
    ensures Sum(dim, f) == Sum(dim, Named(sv, |sv|, f)) + Sum(dim, Unnamed(sv, f))
  {
    SumLinear(dim, 1.0, Named(sv, |sv|, f), 1.0, Unnamed(sv, f), f);
  }

  lemma NothingBeyond(sv: Sparse, x: seq<real>, dim: nat)
    requires Distinct(sv) && Indexed(sv, dim) && |x| <= dim
    ensures Sum(dim, Unnamed(sv, Difference(sv, x))) == Sum(|x|, Unnamed(sv, Difference(sv, x)))
  {
    forall i | |x| <= i < dim ensures Unnamed(sv, Difference(sv, x))(i) == 0.0 {
      UnnamedAt(sv, x, i);
    }
    SumSkips(|x|, dim, Unnamed(sv, Difference(sv, x)));
  }

  /** An entry's own term of the dense dot product. */
  lemma OverlapAt(sv: Sparse, x: seq<real>, n: nat)
    requires Distinct(sv) && n < |sv|
    ensures Overlap(sv, x)(sv[n].0 - 1) == sv[n].1 * Dense(x, sv[n].0)
  {
    ComponentAt(sv, n);
  }

  /** The polynomial kernel's product: the sparse entries alone give the dense dot product. */
  method SparseDot(sv: Sparse, x: seq<real>, ghost dim: nat) returns (dot: real)
    requires Distinct(sv) && Indexed(sv, dim) && |x| <= dim
    ensures dot == Sum(dim, Overlap(sv, x))
  {
    hide Overlap;
    hide Named;
    hide Distinct;
    hide Dense;
    hide Sum;
    dot := 0.0;
    ghost var f := Overlap(sv, x);
    NoneNamed(sv, f, dim);
    for n := 0 to |sv|
      invariant dot == Sum(dim, Named(sv, n, f))
    {
      var (k, v) := sv[n];
      OverlapAt(sv, x, n);
      NamedStep(sv, n, f, dim);
      dot := dot + v * Dense(x, k);
    }
    OnlyNamedOverlap(sv, x, dim);
  }

  lemma NoneNamed(sv: Sparse, f: Vec, dim: nat)
    ensures Sum(dim, Named(sv, 0, f)) == 0.0
  {
    SumConstant(dim, 0.0, Named(sv, 0, f));
  }

  lemma OnlyNamedOverlap(sv: Sparse, x: seq<real>, dim: nat)
    requires Distinct(sv) && Indexed(sv, dim) && |x| <= dim
    ensures Sum(dim, Named(sv, |sv|, Overlap(sv, x))) == Sum(dim, Overlap(sv, x))
  {
    var f := Overlap(sv, x);
    forall i | 0 <= i < dim ensures Named(sv, |sv|, f)(i) == f(i) {
      if !exists a :: 0 <= a < |sv| && sv[a].0 == i + 1 {
        ComponentAbsent(sv, i + 1);
      }
    }
    SumEqual(dim, Named(sv, |sv|, f), f);
  }
}
