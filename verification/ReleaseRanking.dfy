/**
 Choosing the release a file is from, as tools/choose_release.py ranks candidates: a score for each, a
 leading tier picked by ordered criteria, one edition per release group, and everything else after it.

 A missing value and an empty one are one case for every test the source makes, so both are "" here.
 `nameMatch` is a parameter. Scores are exact reals, rounded where the source rounds.
 */
module ReleaseRanking {
  import opened Optional
  import opened Rounding
  import opened Sorting

  datatype Row = Row(release: string, title: string, date: string, status: string, primary: string,
                     secondary: seq<string>, group: string)

  /** A scored row. `id` is the row's own place, standing for the identity of the source's record. */
  datatype Candidate = Candidate(id: nat, row: Row, name: real, kind: real, score: real)

  // -------------------------------------------------------------------- scoring

  /** What a secondary type takes from a release's kind. */
  function Demotion(tag: string): real
  {
    match tag
    case "Compilation" => -1.0
    case "Live" => -0.7
    case "Soundtrack" => -0.6
    case "Remix" => -0.5
    case "DJ-mix" => -0.8
    case "Interview" => -1.0
    case "Demo" => -0.3
    case _ => 0.0
  }

  function Demotions(tags: seq<string>): real
  {
    if tags == [] then 0.0 else Demotion(tags[0]) + Demotions(tags[1..])
  }

  function KindScore(primary: string, tags: seq<string>): real
  {
    (if primary == "Album" then 1.0 else if primary == "EP" then 0.4 else 0.0) + Demotions(tags)
  }

  function StatusScore(status: string): real
  {
    match status
    case "Official" => 1.0
    case "Promotion" => 0.3
    case "Bootleg" => -0.5
    case _ => 0.5
  }

  predicate IsDigit(c: char)
  {
    '0' <= c <= '9'
  }

  predicate AllDigits(s: string)
  {
    forall i :: 0 <= i < |s| ==> IsDigit(s[i])
  }

  function Number(digits: string): (n: nat)
    requires AllDigits(digits)
  {
    if digits == "" then 0
    else Number(digits[..|digits| - 1]) * 10 + (digits[|digits| - 1] as int - '0' as int)
  }

  function FirstFour(date: string): string
  {
    if |date| > 4 then date[..4] else date
  }

  /** The year of a date: its first four characters, when they are all digits. */
  function Year(date: string): Option<nat>
  {
    if date != "" && AllDigits(FirstFour(date)) then Some(Number(FirstFour(date))) else None
  }

  lemma {:induction false} NumberBound(digits: string, limit: nat)
    requires AllDigits(digits)
    requires limit == Power10(|digits|)
    ensures Number(digits) < limit
  {
    if digits != "" {
      NumberBound(digits[..|digits| - 1], Power10(|digits| - 1));
    }
  }

  function Power10(n: nat): nat
  {
    if n == 0 then 1 else 10 * Power10(n - 1)
  }

  lemma YearBound(date: string)
    ensures Year(date).Some? ==> Year(date).value <= 9999
  {
    if Year(date).Some? {
      NumberBound(FirstFour(date), Power10(|FirstFour(date)|));
      assert Power10(0) == 1 && Power10(1) == 10 && Power10(2) == 100 && Power10(3) == 1000 && Power10(4) == 10000;
    }
  }

  function YearOr(date: string, missing: nat): nat
  {
    match Year(date)
    case None => missing
    case Some(y) => y
  }

  /** The source's `year(date) or 9999`, for which a year of 0 is no year. */
  function YearOrLast(date: string): nat
  {
    if YearOr(date, 0) == 0 then 9999 else YearOr(date, 0)
  }

  function Scored(id: nat, r: Row, name: real, oldest: Option<nat>): (c: Candidate)
    ensures c.id == id && c.row == r
  {
    var kind := KindScore(r.primary, r.secondary);
    var y := YearOr(r.date, 0);
    var age := if y != 0 && oldest.Some? && oldest.value != 0
               then (var a := 1.0 - (y - oldest.value) as real / 30.0; if a > 0.0 then a else 0.0)
               else 0.0;
    var total := 5.0 * name + 3.0 * kind + 1.0 * StatusScore(r.status) + 0.5 * age;
    Candidate(id, r, RoundTo(name, 1000), RoundTo(kind, 100), RoundTo(total, 1000))
  }

  // --------------------------------------------------------------------- orders

  /** Comparison of strings, character by character. */
  predicate TextLe(s: string, t: string)
  {
    s == "" || (t != "" && (s[0] < t[0] || (s[0] == t[0] && TextLe(s[1..], t[1..]))))
  }

  lemma {:induction false} TextTotal(s: string, t: string)
    ensures TextLe(s, t) || TextLe(t, s)
  {
    if s != "" && t != "" {
      TextTotal(s[1..], t[1..]);
    }
  }

  lemma {:induction false} TextTransitive(s: string, t: string, u: string)
    requires TextLe(s, t) && TextLe(t, u)
    ensures TextLe(s, u)
  {
    if s != "" && s[0] == t[0] && t[0] == u[0] {
      TextTransitive(s[1..], t[1..], u[1..]);
    }
  }

  predicate TextLt(s: string, t: string)
  {
    !TextLe(t, s)
  }

  function DateKey(c: Candidate): string
  {
    if c.row.date == "" then "9999" else c.row.date
  }

  /** By score, best first, then date, then title. */
  predicate ByScoreDateTitle(x: Candidate, y: Candidate)
  {
    x.score > y.score
    || (x.score == y.score
        && (TextLt(DateKey(x), DateKey(y))
            || (TextLe(DateKey(x), DateKey(y)) && TextLe(x.row.title, y.row.title))))
  }

  predicate ByYearTitle(x: Candidate, y: Candidate)
  {
    YearOr(x.row.date, 0) < YearOr(y.row.date, 0)
    || (YearOr(x.row.date, 0) == YearOr(y.row.date, 0) && TextLe(x.row.title, y.row.title))
  }

  predicate ByScoreDate(x: Candidate, y: Candidate)
  {
    x.score > y.score || (x.score == y.score && TextLe(DateKey(x), DateKey(y)))
  }

  lemma ByYearTitleOrder()
    ensures TotalPreorder(ByYearTitle)
  {
    forall x, y ensures ByYearTitle(x, y) || ByYearTitle(y, x) {
      TextTotal(x.row.title, y.row.title);
    }
    forall x, y, z | ByYearTitle(x, y) && ByYearTitle(y, z) ensures ByYearTitle(x, z) {
      if TextLe(x.row.title, y.row.title) && TextLe(y.row.title, z.row.title) {
        TextTransitive(x.row.title, y.row.title, z.row.title);
      }
    }
  }

  lemma ByScoreDateOrder()
    ensures TotalPreorder(ByScoreDate)
  {
    forall x, y ensures ByScoreDate(x, y) || ByScoreDate(y, x) {
      TextTotal(DateKey(x), DateKey(y));
    }
    forall x, y, z | ByScoreDate(x, y) && ByScoreDate(y, z) ensures ByScoreDate(x, z) {
      if TextLe(DateKey(x), DateKey(y)) && TextLe(DateKey(y), DateKey(z)) {
        TextTransitive(DateKey(x), DateKey(y), DateKey(z));
      }
    }
  }

  lemma DateTitleTransitive(x: Candidate, y: Candidate, z: Candidate)
    requires ByScoreDateTitle(x, y) && ByScoreDateTitle(y, z)
    ensures ByScoreDateTitle(x, z)
  {
    if x.score == y.score == z.score {
      TextTotal(DateKey(x), DateKey(y));
      TextTotal(DateKey(y), DateKey(z));
      TextTransitive(DateKey(x), DateKey(y), DateKey(z));
      if TextLe(DateKey(z), DateKey(x)) {
        TextTransitive(DateKey(y), DateKey(z), DateKey(x));
        TextTransitive(DateKey(z), DateKey(x), DateKey(y));
        TextTransitive(x.row.title, y.row.title, z.row.title);
      }
    }
  }

  lemma ByScoreDateTitleOrder()
    ensures TotalPreorder(ByScoreDateTitle)
  {
    forall x, y ensures ByScoreDateTitle(x, y) || ByScoreDateTitle(y, x) {
      TextTotal(DateKey(x), DateKey(y));
      TextTotal(x.row.title, y.row.title);
    }
    forall x, y, z | ByScoreDateTitle(x, y) && ByScoreDateTitle(y, z) ensures ByScoreDateTitle(x, z) {
      DateTitleTransitive(x, y, z);
    }
  }

  // ----------------------------------------------------------------------- tiers

  function BestName(out: seq<Candidate>): real
  {
    if out == [] then 0.0
    else if |out| == 1 then out[0].name
    else (var rest := BestName(out[1..]); if out[0].name > rest then out[0].name else rest)
  }

  function Keep(out: seq<Candidate>, p: Candidate -> bool): seq<Candidate>
  {
    if out == [] then [] else (if p(out[0]) then [out[0]] else []) + Keep(out[1..], p)
  }

  /** An official, dated album that no secondary type demotes. */
  predicate Original(c: Candidate)
  {
    c.row.primary == "Album" && c.kind >= 1.0 && c.row.status == "Official" && Year(c.row.date).Some?
  }

  function Near(best: real): Candidate -> bool
  {
    (c: Candidate) => c.name >= best - 0.05
  }

  /** The leading tier, sorted: the named record, or else the original albums, or else everything. */
  function Tier(out: seq<Candidate>): seq<Candidate>
  {
    var best := BestName(out);
    if best >= 0.85 then
      Sorted(Keep(out, Near(best)), ByScoreDateTitle)
    else
      var originals := Keep(out, Original);
      if originals != [] then Sorted(originals, ByYearTitle) else Sorted(out, ByScoreDate)
  }

  lemma {:induction false} KeepFacts(out: seq<Candidate>, p: Candidate -> bool)
    ensures forall c :: c in Keep(out, p) <==> c in out && p(c)
    ensures NoRepeats(out) ==> NoRepeats(Keep(out, p))
  {
    if out != [] {
      KeepFacts(out[1..], p);
      assert out == [out[0]] + out[1..];
      if NoRepeats(out) {
        assert NoRepeats(out[1..]) && out[0] !in out[1..];
      }
    }
  }

  lemma {:induction false} BestNameFacts(out: seq<Candidate>)
    ensures forall c :: c in out ==> c.name <= BestName(out)
    ensures out != [] ==> exists c :: c in out && c.name == BestName(out)
  {
    if |out| == 1 {
      assert out[0] in out;
    } else if out != [] {
      BestNameFacts(out[1..]);
      if out[0].name > BestName(out[1..]) {
        assert out[0] in out;
      } else {
        var c :| c in out[1..] && c.name == BestName(out[1..]);
        assert c in out;
      }
    }
  }

  lemma SortedFacts(s: seq<Candidate>, le: (Candidate, Candidate) -> bool)
    requires NoRepeats(s)
    ensures NoRepeats(Sorted(s, le)) && (forall c :: c in Sorted(s, le) <==> c in s)
    ensures Sorted(s, le) == [] <==> s == []
  {
    PermutationNoRepeats(s, Sorted(s, le));
  }

  /** A confident name match: the tier is everything within 0.05 of the best, by score, date and title. */
  lemma NamedTier(out: seq<Candidate>)
    requires NoRepeats(out) && BestName(out) >= 0.85
    ensures NoRepeats(Tier(out)) && Tier(out) != [] && SortedBy(Tier(out), ByScoreDateTitle)
    ensures forall c :: c in Tier(out) <==> c in out && c.name >= BestName(out) - 0.05
  {
    var best := BestName(out);
    BestNameFacts(out);
    KeepFacts(out, Near(best));
    SortedFacts(Keep(out, Near(best)), ByScoreDateTitle);
    ByScoreDateTitleOrder();
    SortedIsSorted(Keep(out, Near(best)), ByScoreDateTitle);
    var c :| c in out && c.name == best;
    assert c in Keep(out, Near(best));
  }

  /** No confident name match, and some original album: the tier is the original albums, earliest first. */
  lemma OriginalTier(out: seq<Candidate>)
    requires NoRepeats(out) && BestName(out) < 0.85 && exists c :: c in out && Original(c)
    ensures NoRepeats(Tier(out)) && Tier(out) != [] && SortedBy(Tier(out), ByYearTitle)
    ensures forall c :: c in Tier(out) <==> c in out && Original(c)
  {
    var c :| c in out && Original(c);
    KeepFacts(out, Original);
    assert c in Keep(out, Original);
    SortedFacts(Keep(out, Original), ByYearTitle);
    ByYearTitleOrder();
    SortedIsSorted(Keep(out, Original), ByYearTitle);
  }

  /** Neither: the tier is every candidate, by score and date. */
  lemma WholeTier(out: seq<Candidate>)
    requires NoRepeats(out) && BestName(out) < 0.85 && !exists c :: c in out && Original(c)
    ensures NoRepeats(Tier(out)) && (forall c :: c in Tier(out) <==> c in out)
    ensures SortedBy(Tier(out), ByScoreDate)
  {
    KeepFacts(out, Original);
    HasMember(Keep(out, Original));
    SortedFacts(out, ByScoreDate);
    ByScoreDateOrder();
    SortedIsSorted(out, ByScoreDate);
  }

  /** The tier is made of candidates, without repeats. */
  lemma TierFacts(out: seq<Candidate>)
    requires NoRepeats(out)
    ensures NoRepeats(Tier(out)) && forall c :: c in Tier(out) ==> c in out
  {
    if BestName(out) >= 0.85 {
      NamedTier(out);
    } else if exists c :: c in out && Original(c) {
      OriginalTier(out);
    } else {
      WholeTier(out);
    }
  }

  // -------------------------------------------------------------------- collapse

  /** The edition preferred within a group: official first, then the earliest. */
  predicate Beats(x: Candidate, y: Candidate)
  {
    (x.row.status == "Official" && y.row.status != "Official")
    || ((x.row.status == "Official" <==> y.row.status == "Official")
        && YearOrLast(x.row.date) < YearOrLast(y.row.date))
  }

  ghost predicate HasGroup(t: seq<Candidate>, g: string)
  {
    exists i :: 0 <= i < |t| && t[i].row.group == g
  }

  /** The first of a group's members that no member beats. */
  ghost function Best(t: seq<Candidate>, g: string): Candidate
    requires HasGroup(t, g)
  {
    var init, last := t[..|t| - 1], t[|t| - 1];
    if last.row.group != g then
      assert HasGroup(init, g) by {
        var i :| 0 <= i < |t| && t[i].row.group == g;
        assert init[i].row.group == g;
      }
      Best(init, g)
    else if !HasGroup(init, g) then last
    else if Beats(last, Best(init, g)) then last
    else Best(init, g)
  }

  /** Position i stands for itself, when its group is empty, or for its group, when it is the first of it. */
  ghost predicate OpensSlot(t: seq<Candidate>, i: nat)
    requires i < |t|
  {
    t[i].row.group == "" || !HasGroup(t[..i], t[i].row.group)
  }

  ghost function Slots(t: seq<Candidate>, n: nat): seq<nat>
    requires n <= |t|
  {
    if n == 0 then [] else Slots(t, n - 1) + (if OpensSlot(t, n - 1) then [n - 1] else [])
  }

  /** Who represents a position: itself, or the best of its group. */
  ghost function Representative(t: seq<Candidate>, i: nat): Candidate
    requires i < |t|
  {
    if t[i].row.group == "" then t[i]
    else
      assert HasGroup(t, t[i].row.group);
      Best(t, t[i].row.group)
  }

  lemma {:induction false} SlotFacts(t: seq<Candidate>, n: nat)
    requires n <= |t|
    ensures forall k :: 0 <= k < |Slots(t, n)| ==> Slots(t, n)[k] < n && OpensSlot(t, Slots(t, n)[k])
    ensures forall k, l :: 0 <= k < l < |Slots(t, n)| ==> Slots(t, n)[k] < Slots(t, n)[l]
    ensures forall i: nat :: i < n && OpensSlot(t, i) ==> i in Slots(t, n)
  {
    hide OpensSlot;
    if n > 0 {
      SlotFacts(t, n - 1);
    }
  }

  lemma {:induction false} FirstSlot(t: seq<Candidate>, n: nat)
    requires 0 < n <= |t|
    ensures Slots(t, n) != [] && Slots(t, n)[0] == 0
  {
    if n > 1 {
      FirstSlot(t, n - 1);
    } else {
      assert Slots(t, 0) == [] && OpensSlot(t, 0);
    }
  }

  lemma {:induction false} SlotsOfPrefix(t: seq<Candidate>, m: nat, n: nat)
    requires n <= m <= |t|
    ensures Slots(t[..m], n) == Slots(t, n)
  {
    if n > 0 {
      SlotsOfPrefix(t, m, n - 1);
      assert t[..m][..n - 1] == t[..n - 1];
    }
  }

  lemma {:induction false} BestFacts(t: seq<Candidate>, g: string)
    requires HasGroup(t, g)
    ensures Best(t, g) in t && Best(t, g).row.group == g
    ensures forall c :: c in t && c.row.group == g ==> !Beats(c, Best(t, g))
  {
    var init, last := t[..|t| - 1], t[|t| - 1];
    assert t == init + [last];
    if HasGroup(init, g) {
      BestFacts(init, g);
    }
  }

  /** The collapsed tier, said directly: every slot's representative, in the order the slots opened. */
  ghost predicate IsCollapse(t: seq<Candidate>, collapsed: seq<Candidate>)
  {
    && |collapsed| == |Slots(t, |t|)|
    && forall k :: 0 <= k < |collapsed| ==>
         Slots(t, |t|)[k] < |t| && collapsed[k] == Representative(t, Slots(t, |t|)[k])
  }

  predicate SameFields(x: Candidate, y: Candidate)
  {
    x.(id := 0) == y.(id := 0)
  }

  /** The source's `index`: the first record equal to the one sought, whichever record that is. */
  method IndexOf(collapsed: seq<Candidate>, best: Candidate) returns (k: nat)
    requires best in collapsed
    requires forall c :: c in collapsed && c.row.group == best.row.group ==> c == best
    ensures k < |collapsed| && collapsed[k] == best
  {
    k := 0;
    while !SameFields(collapsed[k], best)
      invariant k < |collapsed| && best in collapsed[k..]
      decreases |collapsed| - k
    {
      assert collapsed[k..] == [collapsed[k]] + collapsed[k + 1..];
      k := k + 1;
    }
    assert collapsed[k] in collapsed;
  }

  lemma BestOfLonger(t: seq<Candidate>, d: Candidate, g: string)
    requires HasGroup(t, g)
    ensures HasGroup(t + [d], g)
    ensures Best(t + [d], g) == if d.row.group == g && Beats(d, Best(t, g)) then d else Best(t, g)
  {
    var i :| 0 <= i < |t| && t[i].row.group == g;
    assert (t + [d])[i].row.group == g;
    assert (t + [d])[..|t|] == t;
  }

  lemma SlotsOfLonger(t: seq<Candidate>, d: Candidate)
    ensures Slots(t + [d], |t| + 1)
      == Slots(t, |t|) + (if d.row.group == "" || !HasGroup(t, d.row.group) then [|t|] else [])
  {
    hide HasGroup;
    assert (t + [d])[..|t|] == t;
    SlotsOfPrefix(t + [d], |t|, |t|);
  }

  /** Each non-empty group of the tier has exactly one entry of the collapsed tier. */
  lemma GroupEntry(t: seq<Candidate>, collapsed: seq<Candidate>, g: string) returns (k: nat)
    requires IsCollapse(t, collapsed) && g != "" && HasGroup(t, g)
    ensures k < |collapsed| && collapsed[k] == Best(t, g) && t[Slots(t, |t|)[k]].row.group == g
    ensures forall l :: 0 <= l < |collapsed| && collapsed[l].row.group == g ==> l == k
  {
    SlotFacts(t, |t|);
    var i := FirstOfGroup(t, g);
    assert OpensSlot(t, i);
    k :| 0 <= k < |Slots(t, |t|)| && Slots(t, |t|)[k] == i;
    forall l | 0 <= l < |collapsed| && collapsed[l].row.group == g ensures l == k {
      var s := Slots(t, |t|)[l];
      if t[s].row.group != "" {
        assert HasGroup(t, t[s].row.group);
        BestFacts(t, t[s].row.group);
      }
      OneOpening(t, s, i);
    }
  }

  lemma {:induction false} FirstOfGroup(t: seq<Candidate>, g: string) returns (i: nat)
    requires HasGroup(t, g)
    ensures i < |t| && t[i].row.group == g && !HasGroup(t[..i], g)
  {
    i := 0;
    while t[i].row.group != g
      invariant i < |t| && !HasGroup(t[..i], g)
      decreases |t| - i
    {
      assert t[..i + 1] == t[..i] + [t[i]];
      i := i + 1;
    }
  }

  lemma LaterDoesNotOpen(t: seq<Candidate>, s: nat, i: nat)
    requires s < i < |t| && t[s].row.group == t[i].row.group != ""
    ensures !OpensSlot(t, i)
  {
    assert t[..i][s].row.group == t[i].row.group;
  }

  lemma OneOpening(t: seq<Candidate>, s: nat, i: nat)
    requires s < |t| && i < |t| && t[s].row.group == t[i].row.group != ""
    requires OpensSlot(t, s) && OpensSlot(t, i)
    ensures s == i
  {
    if s < i {
      LaterDoesNotOpen(t, s, i);
    } else if i < s {
      LaterDoesNotOpen(t, i, s);
    }
  }

  lemma RepresentativeOfLonger(t: seq<Candidate>, d: Candidate, i: nat)
    requires i < |t|
    ensures t[i].row.group == "" || t[i].row.group != d.row.group ==>
      Representative(t + [d], i) == Representative(t, i)
    ensures t[i].row.group != "" && t[i].row.group == d.row.group ==>
      Representative(t + [d], i) == if Beats(d, Representative(t, i)) then d else Representative(t, i)
  {
    if t[i].row.group != "" {
      assert HasGroup(t, t[i].row.group);
      BestOfLonger(t, d, t[i].row.group);
    }
  }

  /** A tier member of a new group, or of none, is added at the end. */
  lemma CollapseAppends(t: seq<Candidate>, d: Candidate, collapsed: seq<Candidate>)
    requires IsCollapse(t, collapsed) && (d.row.group == "" || !HasGroup(t, d.row.group))
    ensures IsCollapse(t + [d], collapsed + [d])
  {
    SlotsOfLonger(t, d);
    SlotFacts(t, |t|);
    forall k | 0 <= k < |collapsed|
      ensures Representative(t + [d], Slots(t, |t|)[k]) == collapsed[k]
    {
      assert t[Slots(t, |t|)[k]].row.group != "" ==> HasGroup(t, t[Slots(t, |t|)[k]].row.group);
      RepresentativeOfLonger(t, d, Slots(t, |t|)[k]);
    }
    assert Representative(t + [d], |t|) == d by {
      assert (t + [d])[..|t|] == t;
    }
  }

  /** What a member of a known group does to the entry at k of the collapsed tier. */
  lemma EntryOfLonger(t: seq<Candidate>, d: Candidate, collapsed: seq<Candidate>, k0: nat, k: nat)
    requires IsCollapse(t, collapsed) && d.row.group != "" && HasGroup(t, d.row.group)
    requires k0 < |collapsed| && collapsed[k0] == Best(t, d.row.group) && k < |collapsed|
    ensures Slots(t, |t|)[k] < |t|
    ensures Representative(t + [d], Slots(t, |t|)[k])
         == if k == k0 && Beats(d, Best(t, d.row.group)) then d else collapsed[k]
  {
    var g, i := d.row.group, Slots(t, |t|)[k];
    BestFacts(t, g);
    var k1 := GroupEntry(t, collapsed, g);
    assert k1 == k0;
    RepresentativeOfLonger(t, d, i);
    if t[i].row.group != "" {
      assert HasGroup(t, t[i].row.group);
      BestFacts(t, t[i].row.group);
    }
  }

  /** A tier member of a known group takes its group's place if it beats the holder, and no other place. */
  lemma CollapseReplaces(t: seq<Candidate>, d: Candidate, collapsed: seq<Candidate>, k0: nat)
    requires IsCollapse(t, collapsed) && d.row.group != "" && HasGroup(t, d.row.group)
    requires k0 < |collapsed| && collapsed[k0] == Best(t, d.row.group)
    ensures IsCollapse(t + [d], if Beats(d, Best(t, d.row.group)) then collapsed[k0 := d] else collapsed)
  {
    var t', beats := t + [d], Beats(d, Best(t, d.row.group));
    var collapsed' := if beats then collapsed[k0 := d] else collapsed;
    SlotsOfLonger(t, d);
    assert Slots(t', |t'|) == Slots(t, |t|);
    forall k | 0 <= k < |collapsed'|
      ensures Slots(t', |t'|)[k] < |t'| && collapsed'[k] == Representative(t', Slots(t', |t'|)[k])
    {
      EntryOfLonger(t, d, collapsed, k0, k);
    }
  }

  lemma GroupsOfLonger(t: seq<Candidate>, d: Candidate)
    ensures forall g :: HasGroup(t + [d], g) <==> HasGroup(t, g) || g == d.row.group
  {
    forall g ensures HasGroup(t + [d], g) <==> HasGroup(t, g) || g == d.row.group {
      if HasGroup(t, g) {
        BestOfLonger(t, d, g);
      }
      if g == d.row.group {
        assert (t + [d])[|t|].row.group == g;
      }
    }
  }

  /** What the loop below remembers: the best of every group so far. */
  ghost predicate Remembers(seen: map<string, Candidate>, t: seq<Candidate>)
  {
    && (forall g :: g in seen <==> g != "" && HasGroup(t, g))
    && (forall g :: g in seen ==> seen[g] == Best(t, g))
  }

  lemma RemembersOther(seen: map<string, Candidate>, t: seq<Candidate>, d: Candidate, g: string)
    requires Remembers(seen, t)
    ensures g != d.row.group ==>
      (g in seen <==> g != "" && HasGroup(t + [d], g)) && (g in seen ==> seen[g] == Best(t + [d], g))
    ensures g == d.row.group ==> HasGroup(t + [d], g)
    ensures g == d.row.group && g in seen ==> Best(t + [d], g) == if Beats(d, seen[g]) then d else seen[g]
  {
    GroupsOfLonger(t, d);
    if g in seen {
      BestOfLonger(t, d, g);
    }
    hide Best;
    hide Beats;
    hide HasGroup;
  }

  lemma RemembersLonger(seen: map<string, Candidate>, t: seq<Candidate>, d: Candidate)
    requires Remembers(seen, t)
    ensures var key := d.row.group;
      Remembers(if key != "" && (key !in seen || Beats(d, seen[key])) then seen[key := d] else seen, t + [d])
  {
    hide HasGroup;
    hide Beats;
    hide Best;
    var key := d.row.group;
    if !HasGroup(t, key) {
      NewGroupBest(t, d);
    }
    var seen' := if key != "" && (key !in seen || Beats(d, seen[key])) then seen[key := d] else seen;
    forall g
      ensures g in seen' <==> g != "" && HasGroup(t + [d], g)
      ensures g in seen' ==> seen'[g] == Best(t + [d], g)
    {
      RemembersOther(seen, t, d, g);
    }
  }

  lemma NewGroupBest(t: seq<Candidate>, d: Candidate)
    requires !HasGroup(t, d.row.group)
    ensures HasGroup(t + [d], d.row.group) && Best(t + [d], d.row.group) == d
  {
    GroupsOfLonger(t, d);
    assert (t + [d])[..|t|] == t;
  }

  /** The holder of a known group's place, sought by value, is found in that place. */
  lemma HolderAlone(t: seq<Candidate>, collapsed: seq<Candidate>, g: string) returns (k: nat)
    requires IsCollapse(t, collapsed) && g != "" && HasGroup(t, g)
    ensures k < |collapsed| && collapsed[k] == Best(t, g) && Best(t, g).row.group == g
    ensures forall l :: 0 <= l < |collapsed| && collapsed[l].row.group == g ==> l == k
  {
    BestFacts(t, g);
    k := GroupEntry(t, collapsed, g);
  }

  /** One decision per release group, by replacement in place. */
  method Collapse(tier: seq<Candidate>) returns (collapsed: seq<Candidate>)
    ensures IsCollapse(tier, collapsed)
  {
    hide IsCollapse;
    hide HasGroup;
    hide Best;
    hide Beats;
    var seen: map<string, Candidate> := map[];
    collapsed := [];
    EmptyCollapse();
    for n := 0 to |tier|
      invariant IsCollapse(tier[..n], collapsed) && Remembers(seen, tier[..n])
    {
      var d := tier[n];
      ghost var t := tier[..n];
      assert tier[..n + 1] == t + [d];
      RemembersLonger(seen, t, d);
      var key := d.row.group;
      if key == "" {
        CollapseAppends(t, d, collapsed);
        collapsed := collapsed + [d];
      } else if key !in seen {
        CollapseAppends(t, d, collapsed);
        seen := seen[key := d];
        collapsed := collapsed + [d];
      } else {
        var best := seen[key];
        ghost var k0 := HolderAlone(t, collapsed, key);
        CollapseReplaces(t, d, collapsed, k0);
        if Beats(d, best) {
          var k := IndexOf(collapsed, best);
          collapsed := collapsed[k := d];
          seen := seen[key := d];
        }
      }
    }
    assert tier[..|tier|] == tier;
  }

  lemma EmptyCollapse()
    ensures IsCollapse([], []) && Remembers(map[], [])
  {
  }

  lemma UngroupedStays(t: seq<Candidate>, collapsed: seq<Candidate>, c: Candidate)
    requires IsCollapse(t, collapsed) && c in t && c.row.group == ""
    ensures c in collapsed
  {
    SlotFacts(t, |t|);
    var i :| 0 <= i < |t| && t[i] == c;
    assert OpensSlot(t, i);
    var k :| 0 <= k < |Slots(t, |t|)| && Slots(t, |t|)[k] == i;
    assert collapsed[k] == c;
  }

  /**
   The collapsed tier holds each non-empty group of the tier once, by its best member, and every member
   without a group.
   */
  lemma CollapseFacts(t: seq<Candidate>, collapsed: seq<Candidate>)
    requires NoRepeats(t) && IsCollapse(t, collapsed)
    ensures NoRepeats(collapsed) && forall c :: c in collapsed ==> c in t
    ensures forall k, l :: 0 <= k < l < |collapsed| && collapsed[k].row.group != "" ==>
      collapsed[k].row.group != collapsed[l].row.group
    ensures forall c :: c in collapsed && c.row.group != "" ==>
      HasGroup(t, c.row.group) && c == Best(t, c.row.group)
    ensures forall g :: g != "" && HasGroup(t, g) ==> Best(t, g) in collapsed
    ensures forall c :: c in t && c.row.group == "" ==> c in collapsed
    ensures t != [] ==> collapsed != [] && collapsed[0] == Representative(t, 0)
  {
    SlotFacts(t, |t|);
    forall k | 0 <= k < |collapsed|
      ensures collapsed[k] in t && collapsed[k].row.group == t[Slots(t, |t|)[k]].row.group
      ensures collapsed[k].row.group != "" ==>
        HasGroup(t, collapsed[k].row.group) && collapsed[k] == Best(t, collapsed[k].row.group)
    {
      EntryFacts(t, collapsed, k);
    }
    forall k, l | 0 <= k < l < |collapsed|
      ensures collapsed[k].row.group != "" ==> collapsed[k].row.group != collapsed[l].row.group
      ensures collapsed[k] != collapsed[l]
    {
      TwoEntries(t, collapsed, k, l);
    }
    forall g | g != "" && HasGroup(t, g) ensures Best(t, g) in collapsed {
      var k := GroupEntry(t, collapsed, g);
    }
    forall c | c in t && c.row.group == "" ensures c in collapsed {
      UngroupedStays(t, collapsed, c);
    }
    if t != [] {
      FirstSlot(t, |t|);
    }
  }

  lemma EntryFacts(t: seq<Candidate>, collapsed: seq<Candidate>, k: nat)
    requires IsCollapse(t, collapsed) && k < |collapsed|
    ensures Slots(t, |t|)[k] < |t|
    ensures collapsed[k] in t && collapsed[k].row.group == t[Slots(t, |t|)[k]].row.group
    ensures collapsed[k].row.group != "" ==>
      HasGroup(t, collapsed[k].row.group) && collapsed[k] == Best(t, collapsed[k].row.group)
  {
    var i := Slots(t, |t|)[k];
    if t[i].row.group != "" {
      assert HasGroup(t, t[i].row.group);
      BestFacts(t, t[i].row.group);
    }
  }

  lemma TwoEntries(t: seq<Candidate>, collapsed: seq<Candidate>, k: nat, l: nat)
    requires NoRepeats(t) && IsCollapse(t, collapsed) && k < l < |collapsed|
    ensures collapsed[k].row.group != "" ==> collapsed[k].row.group != collapsed[l].row.group
    ensures collapsed[k] != collapsed[l]
  {
    SlotFacts(t, |t|);
    EntryFacts(t, collapsed, k);
    EntryFacts(t, collapsed, l);
    var i, j := Slots(t, |t|)[k], Slots(t, |t|)[l];
    assert i < j;
    if t[i].row.group != "" && t[i].row.group == t[j].row.group {
      LaterDoesNotOpen(t, i, j);
    }
  }

  // ------------------------------------------------------------------ the ranking

  function Unchosen(chosen: set<nat>): Candidate -> bool
  {
    (c: Candidate) => c.id !in chosen
  }

  ghost predicate DistinctIds(out: seq<Candidate>)
  {
    forall i, j :: 0 <= i < j < |out| ==> out[i].id != out[j].id
  }

  /** The scored rows, each with its own place as its id. */
  function Candidates(rows: seq<Row>, tag: string, oldest: Option<nat>,
                      nameMatch: (string, string) -> real): (out: seq<Candidate>)
    ensures |out| == |rows| && forall i :: 0 <= i < |out| ==> out[i].id == i
  {
    var out := seq(|rows|, i requires 0 <= i < |rows| => Scored(i, rows[i], nameMatch(tag, rows[i].title), oldest));
    assert forall i :: 0 <= i < |out| ==> out[i] == Scored(i, rows[i], nameMatch(tag, rows[i].title), oldest);
    out
  }

  /**
   Every candidate, best first: one edition per release group of the leading tier, and then all the rest
   by score. The result is a permutation of the candidates.
   */
  method ScoreAll(rows: seq<Row>, tag: string, oldest: Option<nat>, nameMatch: (string, string) -> real)
    returns (result: seq<Candidate>, ghost collapsed: seq<Candidate>)
    ensures multiset(result) == multiset(Candidates(rows, tag, oldest, nameMatch))
    ensures IsCollapse(Tier(Candidates(rows, tag, oldest, nameMatch)), collapsed)
    ensures |collapsed| <= |result| && result[..|collapsed|] == collapsed
    ensures SortedBy(result[|collapsed|..], ByScoreDate)
  {
    var out: seq<Candidate> := [];
    for i := 0 to |rows|
      invariant out == Candidates(rows, tag, oldest, nameMatch)[..i]
    {
      out := out + [Scored(i, rows[i], nameMatch(tag, rows[i].title), oldest)];
    }
    assert out == Candidates(rows, tag, oldest, nameMatch);
    var tier := Collapse(Tier(out));
    collapsed := tier;
    var chosen := set i | 0 <= i < |tier| :: tier[i].id;
    var rest := Sorted(Keep(out, Unchosen(chosen)), ByScoreDate);
    result := tier + rest;
    SplitIsPermutation(out, tier, chosen);
    ByScoreDateOrder();
    SortedIsSorted(Keep(out, Unchosen(chosen)), ByScoreDate);
  }

  /** The collapsed tier and the candidates it does not name make up the candidates. */
  lemma SplitIsPermutation(out: seq<Candidate>, tier: seq<Candidate>, chosen: set<nat>)
    requires DistinctIds(out) && IsCollapse(Tier(out), tier)
    requires chosen == set i | 0 <= i < |tier| :: tier[i].id
    ensures multiset(tier) + multiset(Sorted(Keep(out, Unchosen(chosen)), ByScoreDate)) == multiset(out)
  {
    var rest := Keep(out, Unchosen(chosen));
    DistinctIdsNoRepeats(out);
    TierFacts(out);
    CollapseFacts(Tier(out), tier);
    KeepFacts(out, Unchosen(chosen));
    forall c | c in out ensures c in tier <==> c.id in chosen {
      if c.id in chosen {
        var i :| 0 <= i < |tier| && tier[i].id == c.id;
        assert tier[i] in out;
        SameId(out, tier[i], c);
      }
    }
    forall i, j | 0 <= i < |tier| && 0 <= j < |rest| ensures tier[i] != rest[j] {
      assert rest[j] in rest && tier[i] in tier;
    }
    assert NoRepeats(tier + rest);
    SameElementsSameMultiset(tier + rest, out);
  }

  lemma DistinctIdsNoRepeats(out: seq<Candidate>)
    requires DistinctIds(out)
    ensures NoRepeats(out)
  {
  }

  lemma SameId(out: seq<Candidate>, x: Candidate, y: Candidate)
    requires DistinctIds(out) && x in out && y in out && x.id == y.id
    ensures x == y
  {
    var i :| 0 <= i < |out| && out[i] == x;
    var j :| 0 <= j < |out| && out[j] == y;
    assert i == j;
  }

  /**
   When the file's tag names a release, the first result stands for the best-scored of those it names: it is
   that one, or the edition of its group that is preferred.
   */
  lemma NamedRecordFirst(out: seq<Candidate>, collapsed: seq<Candidate>)
    requires NoRepeats(out) && BestName(out) >= 0.85 && IsCollapse(Tier(out), collapsed)
    ensures collapsed != [] && collapsed[0] in out && collapsed[0].name >= BestName(out) - 0.05
    ensures Tier(out) != [] && collapsed[0] == Representative(Tier(out), 0)
    ensures forall c :: c in out && c.name >= BestName(out) - 0.05 && c != Tier(out)[0] ==>
      ByScoreDateTitle(Tier(out)[0], c)
  {
    var t := Tier(out);
    NamedTier(out);
    CollapseFacts(t, collapsed);
    assert collapsed[0] in collapsed;
    forall c | c in t && c != t[0] ensures ByScoreDateTitle(t[0], c) {
      var i :| 0 <= i < |t| && t[i] == c;
      assert ByScoreDateTitle(t[0], t[i]);
    }
  }

  /** The sorted-first original is dated year 0, and an edition of its group is dated between 1 and 9998. */
  ghost predicate DisplacedYearZero(t: seq<Candidate>)
    requires t != []
  {
    && YearOr(t[0].row.date, 0) == 0 && t[0].row.group != ""
    && exists c :: c in t && c.row.group == t[0].row.group && 0 < YearOr(c.row.date, 0) < 9999
  }

  /** The tier of original albums begins with one of least year. */
  lemma OriginalTierLeads(out: seq<Candidate>)
    requires NoRepeats(out) && BestName(out) < 0.85 && exists c :: c in out && Original(c)
    ensures Tier(out) != []
    ensures forall c :: c in Tier(out) ==>
      c.row.status == "Official" && YearOr(Tier(out)[0].row.date, 0) <= YearOr(c.row.date, 0) <= 9999
  {
    var t := Tier(out);
    OriginalTier(out);
    forall c | c in t
      ensures c.row.status == "Official" && YearOr(t[0].row.date, 0) <= YearOr(c.row.date, 0) <= 9999
    {
      var i :| 0 <= i < |t| && t[i] == c;
      assert i > 0 ==> ByYearTitle(t[0], t[i]);
      YearBound(c.row.date);
    }
  }

  /** The representative of an official tier's first member has its year, unless that year is 0 and displaced. */
  lemma LeaderKeepsYear(t: seq<Candidate>)
    requires t != []
    requires forall c :: c in t ==>
      c.row.status == "Official" && YearOr(t[0].row.date, 0) <= YearOr(c.row.date, 0) <= 9999
    ensures Representative(t, 0) in t
    ensures YearOr(Representative(t, 0).row.date, 0) == YearOr(t[0].row.date, 0) <==> !DisplacedYearZero(t)
  {
    assert t[0] in t;
    if t[0].row.group != "" {
      assert HasGroup(t, t[0].row.group);
      BestFacts(t, t[0].row.group);
      FirstOfGroupLeads(t, t[0].row.group);
    }
  }

  /**
   Without a named release and with some original album, the first result is an original album; and it is
   one of least year except in exactly one case. The source reads the year 0 as no year when it compares
   editions of a group, so a group led by an edition dated 0000 is represented by a later edition.
   */
  lemma OriginalFirst(out: seq<Candidate>, collapsed: seq<Candidate>)
    requires NoRepeats(out) && BestName(out) < 0.85 && exists c :: c in out && Original(c)
    requires IsCollapse(Tier(out), collapsed)
    ensures collapsed != [] && collapsed[0] in out && Original(collapsed[0]) && Tier(out) != []
    ensures (forall c :: c in out && Original(c) ==>
              YearOr(collapsed[0].row.date, 0) <= YearOr(c.row.date, 0))
      <==> !DisplacedYearZero(Tier(out))
  {
    var t := Tier(out);
    OriginalTier(out);
    OriginalTierLeads(out);
    CollapseFacts(t, collapsed);
    LeaderKeepsYear(t);
    assert t[0] in t;
  }

  /** If nothing in a group is dated between 1 and 9998, the group's first member keeps its place. */
  lemma {:induction false} FirstOfGroupLeads(t: seq<Candidate>, g: string)
    requires t != [] && t[0].row.group == g && HasGroup(t, g)
    requires forall c :: c in t ==> c.row.status == "Official" && YearOr(c.row.date, 0) <= 9999
    ensures (forall c :: c in t && c.row.group == g ==> YearOrLast(c.row.date) == 9999) ==> Best(t, g) == t[0]
  {
    hide YearOr;
    hide YearOrLast;
    var init := t[..|t| - 1];
    assert t == init + [t[|t| - 1]];
    if |t| > 1 {
      assert init[0] == t[0];
      FirstOfGroupLeads(init, g);
      if HasGroup(init, g) {
        BestFacts(init, g);
      }
    }
  }

  // Two editions of one album, one of them dated 0000, and a file without a tag.

  ghost function Edition(date: string): Row
  {
    Row("release", "Title", date, "Official", "Album", [], "group")
  }

  ghost function TwoEditions(): seq<Candidate>
  {
    Candidates([Edition("0000"), Edition("1975")], "", None, (tag, title) => 0.0)
  }

  lemma EditionYears()
    ensures YearOr("0000", 1) == YearOr("0000", 0) == 0
    ensures YearOr("1975", 1) == YearOr("1975", 0) == 1975
  {
    assert FirstFour("0000") == "0000" && FirstFour("1975") == "1975";
    DigitsOf("0000", 0, 0, 0, 0);
    DigitsOf("1975", 1, 9, 7, 5);
  }

  lemma EditionScored(id: nat, date: string)
    requires Year(date).Some?
    ensures var c := Scored(id, Edition(date), 0.0, None); c.name == 0.0 && Original(c)
  {
    RoundsToNear(0.0, 0);
    PlainAlbum(id, Edition(date), 0.0, None);
  }

  /** The two editions as they are scored: both originals, neither named. */
  lemma EditionsScored()
    ensures var out := TwoEditions();
      && |out| == 2 && NoRepeats(out) && BestName(out) == 0.0
      && out[0].row == Edition("0000") && out[1].row == Edition("1975") && Original(out[0]) && Original(out[1])
  {
    var out := TwoEditions();
    EditionYears();
    EditionScored(0, "0000");
    EditionScored(1, "1975");
    assert out[1..] == [out[1]];
    assert out[0].id != out[1].id;
  }

  /** Of two originals of one group, one of the year 0 and one of a later year, the first leads and is displaced. */
  lemma YearZeroLeads(out: seq<Candidate>)
    requires |out| == 2 && NoRepeats(out) && BestName(out) == 0.0 && Original(out[0]) && Original(out[1])
    requires YearOr(out[0].row.date, 0) == 0 < YearOr(out[1].row.date, 0) < 9999
    requires out[0].row.group == out[1].row.group != ""
    ensures Tier(out) != [] && DisplacedYearZero(Tier(out))
  {
    var t := Tier(out);
    OriginalTier(out);
    OriginalTierLeads(out);
    hide Tier;
    hide Original;
    hide YearOr;
    hide NoRepeats;
    hide BestName;
    hide SortedBy;
    LeastOfTwo(out, t);
  }

  lemma LeastOfTwo(out: seq<Candidate>, t: seq<Candidate>)
    requires |out| == 2 && t != [] && out[0] in t && out[1] in t && forall c :: c in t ==> c in out
    requires forall c :: c in t ==> YearOr(t[0].row.date, 0) <= YearOr(c.row.date, 0)
    requires YearOr(out[0].row.date, 0) == 0 < YearOr(out[1].row.date, 0) < 9999
    requires out[0].row.group == out[1].row.group != ""
    ensures DisplacedYearZero(t)
  {
    hide YearOr;
    assert t[0] in t && t[0] in out;
    assert t[0] == out[0];
  }

  /** Of two editions of one album, dated 0000 and 1975, the later one comes first. */
  lemma YearZeroLosesItsPlace(collapsed: seq<Candidate>)
    requires IsCollapse(Tier(TwoEditions()), collapsed)
    ensures collapsed != [] && collapsed[0].row == Edition("1975")
  {
    hide IsCollapse;
    hide TwoEditions;
    hide Tier;
    hide Original;
    hide YearOr;
    hide NoRepeats;
    hide BestName;
    hide DisplacedYearZero;
    var out := TwoEditions();
    EditionsScored();
    EditionYears();
    YearZeroLeads(out);
    assert out[0] in out && forall c :: c in out ==> c == out[0] || c == out[1];
    OriginalFirst(out, collapsed);
  }

  lemma DigitsOf(s: string, a: nat, b: nat, c: nat, d: nat)
    requires |s| == 4 && AllDigits(s)
    requires s[0] as int == '0' as int + a && s[1] as int == '0' as int + b
    requires s[2] as int == '0' as int + c && s[3] as int == '0' as int + d
    ensures Number(s) == ((a * 10 + b) * 10 + c) * 10 + d
  {
    assert s[..3][..2] == s[..2] && s[..2][..1] == s[..1] && s[..1][..0] == "";
    assert Number(s[..1]) == a;
    assert Number(s[..2]) == a * 10 + b;
    assert Number(s[..3]) == (a * 10 + b) * 10 + c;
  }

  // ------------------------------------------------------------- what is demoted

  lemma {:induction false} DemotionsSign(tags: seq<string>)
    ensures (forall t :: t in tags ==> Demotion(t) == 0.0) ==> Demotions(tags) == 0.0
    ensures (exists t :: t in tags && Demotion(t) != 0.0) ==> Demotions(tags) <= -0.3
  {
    if tags != [] {
      assert tags == [tags[0]] + tags[1..];
      DemotionsSign(tags[1..]);
    }
  }

  /** An album counts as a record a song belongs to exactly when no secondary type demotes it. */
  lemma PlainAlbum(id: nat, r: Row, name: real, oldest: Option<nat>)
    requires r.primary == "Album"
    ensures Scored(id, r, name, oldest).kind >= 1.0 <==> forall t :: t in r.secondary ==> Demotion(t) == 0.0
  {
    hide Demotion;
    hide Demotions;
    hide RoundTo;
    hide YearOr;
    hide StatusScore;
    DemotionsSign(r.secondary);
    RoundedKind(Demotions(r.secondary));
  }

  lemma RoundedKind(x: real)
    ensures x == 0.0 ==> RoundTo(1.0 + x, 100) == 1.0
    ensures x <= -0.3 ==> RoundTo(1.0 + x, 100) < 1.0
  {
    hide RoundHalfEven;
    if x == 0.0 {
      RoundsToNear(100.0, 100);
    } else if x <= -0.3 {
      assert RoundHalfEven((1.0 + x) * 100.0) as real <= 70.5;
    }
  }
}
