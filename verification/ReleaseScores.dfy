/**
 What the scores and the orders of tools/choose_release.py are, said of the release rows themselves: the weights, what
 each criterion takes or gives, and who precedes whom in each tier.
 */
module ReleaseScores {
  import opened Optional
  import opened ReleaseRanking
  import opened Rounding
  import opened Sorting

  // -------------------------------------------------------------------- scoring

  /** What secondary types take from the kind, counted type by type in whatever order they come. */
  ghost function Taken(tags: multiset<string>): real
  {
    1.0 * tags["Compilation"] as real + 0.7 * tags["Live"] as real + 0.6 * tags["Soundtrack"] as real
    + 0.5 * tags["Remix"] as real + 0.8 * tags["DJ-mix"] as real + 1.0 * tags["Interview"] as real
    + 0.3 * tags["Demo"] as real
  }

  lemma OneMoreTaken(tags: multiset<string>, t: string)
    ensures Taken(multiset{t} + tags) == Taken(tags) - Demotion(t)
  {
  }

  lemma {:induction false} DemotionsAreTaken(tags: seq<string>)
    ensures Demotions(tags) == -Taken(multiset(tags))
  {
    if tags != [] {
      assert tags == [tags[0]] + tags[1..];
      DemotionsAreTaken(tags[1..]);
      assert multiset(tags) == multiset{tags[0]} + multiset(tags[1..]);
      OneMoreTaken(multiset(tags[1..]), tags[0]);
      hide Taken;
      hide Demotion;
    }
  }

  ghost function KindOf(r: Row): real
  {
    (if r.primary == "Album" then 1.0 else if r.primary == "EP" then 0.4 else 0.0) - Taken(multiset(r.secondary))
  }

  ghost function StatusOf(r: Row): real
  {
    if r.status == "Official" then 1.0
    else if r.status == "Promotion" then 0.3
    else if r.status == "Bootleg" then -0.5
    else 0.5
  }

  /** A thirtieth less for each year after the oldest, down to nothing; nothing where either year is missing or 0. */
  ghost predicate IsAge(r: Row, oldest: Option<nat>, age: real)
  {
    match (Year(r.date), oldest)
    case (Some(y), Some(o)) =>
      if y == 0 || o == 0 then age == 0.0
      else age >= 0.0 && (if y - o < 30 then 30.0 * age == (30 - (y - o)) as real else age == 0.0)
    case _ => age == 0.0
  }

  /** x is y rounded to the nearest multiple of 1 / scale. */
  ghost predicate IsRounded(x: real, y: real, scale: nat)
    requires scale > 0
  {
    x * scale as real == (x * scale as real).Floor as real && -0.5 <= (y - x) * scale as real <= 0.5
  }

  lemma RoundToIsRounded(y: real, scale: nat)
    requires scale == 100 || scale == 1000
    ensures IsRounded(RoundTo(y, scale), y, scale)
  {
    hide RoundHalfEven;
    if scale == 100 {
      assert RoundTo(y, 100) * 100.0 == RoundHalfEven(y * 100.0) as real;
    } else {
      assert RoundTo(y, 1000) * 1000.0 == RoundHalfEven(y * 1000.0) as real;
    }
  }

  lemma AgeIs(y: int, o: int, a: real)
    requires a == 1.0 - (y - o) as real / 30.0
    ensures 30.0 * a == (30 - (y - o)) as real
  {
  }

  /**
   A row's score: five times how well its title matches, three times its kind, once its status and half its age,
   each of the three values that are kept rounded.
   */
  lemma ScoreIs(id: nat, r: Row, name: real, oldest: Option<nat>)
    ensures exists age ::
      && IsAge(r, oldest, age)
      && IsRounded(Scored(id, r, name, oldest).score, 5.0 * name + 3.0 * KindOf(r) + StatusOf(r) + 0.5 * age, 1000)
    ensures IsRounded(Scored(id, r, name, oldest).name, name, 1000)
    ensures IsRounded(Scored(id, r, name, oldest).kind, KindOf(r), 100)
  {
    hide IsRounded;
    hide RoundTo;
    hide Taken;
    DemotionsAreTaken(r.secondary);
    hide Demotions;
    hide Year;
    var y := YearOr(r.date, 0);
    var age := if y != 0 && oldest.Some? && oldest.value != 0
               then (var a := 1.0 - (y - oldest.value) as real / 30.0; if a > 0.0 then a else 0.0)
               else 0.0;
    if y != 0 && oldest.Some? && oldest.value != 0 {
      AgeIs(y, oldest.value, 1.0 - (y - oldest.value) as real / 30.0);
    }
    assert IsAge(r, oldest, age);
    RoundToIsRounded(name, 1000);
    RoundToIsRounded(KindOf(r), 100);
    RoundToIsRounded(5.0 * name + 3.0 * KindOf(r) + StatusOf(r) + 0.5 * age, 1000);
  }

  /** Rounding to thousandths keeps the order. */
  lemma RoundedInOrder(y: real, y': real)
    requires y <= y'
    ensures RoundTo(y, 1000) <= RoundTo(y', 1000)
  {
    RoundHalfInOrder(y * 1000.0, y' * 1000.0);
    hide RoundHalfEven;
  }

  lemma RoundHalfInOrder(u: real, v: real)
    requires u <= v
    ensures RoundHalfEven(u) <= RoundHalfEven(v)
  {
    assert u.Floor <= v.Floor;
  }

  /** No criterion counts against a release: one at least as good by each is scored at least as high. */
  lemma BetterNeverLower(id: nat, r: Row, name: real, id': nat, r': Row, name': real, oldest: Option<nat>)
    requires name <= name' && KindOf(r) <= KindOf(r') && StatusOf(r) <= StatusOf(r')
    requires Year(r.date).Some? && Year(r'.date).Some? && 0 < Year(r'.date).value <= Year(r.date).value
    ensures Scored(id, r, name, oldest).score <= Scored(id', r', name', oldest).score
  {
    hide RoundTo;
    hide Taken;
    DemotionsAreTaken(r.secondary);
    DemotionsAreTaken(r'.secondary);
    hide Demotions;
    hide Year;
    var total, total' := Total(r, name, oldest), Total(r', name', oldest);
    if oldest.Some? {
      OlderInOrder(Year(r'.date).value, Year(r.date).value, oldest.value);
    }
    RoundedInOrder(total, total');
  }

  ghost function AgeOf(y: int, o: int): real
  {
    var a := 1.0 - (y - o) as real / 30.0;
    if a > 0.0 then a else 0.0
  }

  ghost function Total(r: Row, name: real, oldest: Option<nat>): real
  {
    var y := YearOr(r.date, 0);
    5.0 * name + 3.0 * KindOf(r) + 1.0 * StatusOf(r)
    + 0.5 * if y != 0 && oldest.Some? && oldest.value != 0 then AgeOf(y, oldest.value) else 0.0
  }

  lemma OlderInOrder(y': int, y: int, o: int)
    requires y' <= y
    ensures AgeOf(y, o) <= AgeOf(y', o)
  {
  }

  // --------------------------------------------------------------------- orders

  /** s is the smaller at the first place where they differ. */
  ghost predicate DiffersUp(s: string, t: string)
  {
    exists i :: 0 <= i < |s| && i < |t| && s[..i] == t[..i] && s[i] < t[i]
  }

  lemma DiffersLater(s: string, t: string)
    requires s != "" && t != "" && s[0] == t[0]
    ensures DiffersUp(s, t) <==> DiffersUp(s[1..], t[1..])
  {
    var s', t' := s[1..], t[1..];
    if DiffersUp(s', t') {
      var i :| 0 <= i < |s'| && i < |t'| && s'[..i] == t'[..i] && s'[i] < t'[i];
      assert s[..i + 1] == [s[0]] + s'[..i] && t[..i + 1] == [t[0]] + t'[..i];
      assert s[i + 1] < t[i + 1];
    }
    if DiffersUp(s, t) {
      var i :| 0 <= i < |s| && i < |t| && s[..i] == t[..i] && s[i] < t[i];
      assert s'[..i - 1] == s[..i][1..] && t'[..i - 1] == t[..i][1..];
      assert s'[i - 1] < t'[i - 1];
    }
  }

  lemma DiffersFirst(s: string, t: string)
    requires s != "" && t != "" && s[0] != t[0]
    ensures DiffersUp(s, t) <==> s[0] < t[0]
  {
    if s[0] < t[0] {
      assert s[..0] == t[..0];
    }
    if DiffersUp(s, t) {
      var i :| 0 <= i < |s| && i < |t| && s[..i] == t[..i] && s[i] < t[i];
      assert i > 0 ==> s[..i][0] == t[..i][0];
    }
  }

  /** Texts are compared character by character: a beginning first, then by the first difference. */
  lemma {:induction false} TextLeIs(s: string, t: string)
    ensures TextLe(s, t) <==> s <= t || DiffersUp(s, t)
  {
    if s != "" && t != "" {
      TextLeIs(s[1..], t[1..]);
      if s[0] == t[0] {
        DiffersLater(s, t);
        assert s == [s[0]] + s[1..] && t == [t[0]] + t[1..];
      } else {
        DiffersFirst(s, t);
      }
      hide DiffersUp;
    }
  }

  /** The date that counts in an order, with none counting as the last. */
  ghost function DateOf(c: Candidate): string
  {
    if c.row.date != "" then c.row.date else "9999"
  }

  /** x stands before y by score, and on equal scores by date. */
  ghost predicate AheadByScore(x: Candidate, y: Candidate)
  {
    x.score > y.score || (x.score == y.score && TextLe(DateOf(x), DateOf(y)))
  }

  /** Some release is named: the tier is what is named within 0.05 as well as any, best scores first. */
  lemma NamedTierIs(out: seq<Candidate>)
    requires NoRepeats(out) && exists c :: c in out && c.name >= 0.85
    ensures forall c :: c in Tier(out) <==> c in out && forall d :: d in out ==> c.name >= d.name - 0.05
    ensures forall i, j :: 0 <= i < j < |Tier(out)| ==>
      AheadByScore(Tier(out)[i], Tier(out)[j])
      && (Tier(out)[i].score == Tier(out)[j].score && DateOf(Tier(out)[i]) == DateOf(Tier(out)[j]) ==>
            TextLe(Tier(out)[i].row.title, Tier(out)[j].row.title))
  {
    hide TextLe;
    hide Tier;
    BestNameFacts(out);
    hide BestName;
    NamedTier(out);
    var best :| best in out && best.name == BestName(out);
    forall i, j | 0 <= i < j < |Tier(out)|
      ensures AheadByScore(Tier(out)[i], Tier(out)[j])
      ensures Tier(out)[i].score == Tier(out)[j].score && DateOf(Tier(out)[i]) == DateOf(Tier(out)[j]) ==>
        TextLe(Tier(out)[i].row.title, Tier(out)[j].row.title)
    {
      var x, y := Tier(out)[i], Tier(out)[j];
      assert ByScoreDateTitle(x, y);
      TextTotal(DateKey(x), DateKey(y));
    }
  }

  /** An album that nothing demotes, official and dated. */
  ghost predicate IsOriginal(c: Candidate)
  {
    c.row.primary == "Album" && c.kind >= 1.0 && c.row.status == "Official" && Year(c.row.date).Some?
  }

  /** None is named and some are originals: the tier is these, the earliest first, and by title within a year. */
  lemma OriginalTierIs(out: seq<Candidate>)
    requires NoRepeats(out) && (forall c :: c in out ==> c.name < 0.85) && exists c :: c in out && IsOriginal(c)
    ensures forall c :: c in Tier(out) <==> c in out && IsOriginal(c)
    ensures forall i, j :: 0 <= i < j < |Tier(out)| ==>
      var x, y := Tier(out)[i], Tier(out)[j];
      && Year(x.row.date).Some? && Year(y.row.date).Some?
      && (Year(x.row.date).value < Year(y.row.date).value
          || (Year(x.row.date).value == Year(y.row.date).value && TextLe(x.row.title, y.row.title)))
  {
    hide TextLe;
    hide Tier;
    hide Year;
    NoneNamed(out);
    OriginalTier(out);
    forall i, j | 0 <= i < j < |Tier(out)|
      ensures Original(Tier(out)[i]) && Original(Tier(out)[j]) && ByYearTitle(Tier(out)[i], Tier(out)[j])
    {
      assert Tier(out)[i] in Tier(out) && Tier(out)[j] in Tier(out);
    }
  }

  lemma NoneNamed(out: seq<Candidate>)
    requires forall c :: c in out ==> c.name < 0.85
    ensures BestName(out) < 0.85
  {
    BestNameFacts(out);
    if out != [] {
      var c :| c in out && c.name == BestName(out);
    }
  }

  /** Neither: the tier is everything, best scores first. */
  lemma WholeTierIs(out: seq<Candidate>)
    requires NoRepeats(out) && forall c :: c in out ==> c.name < 0.85 && !IsOriginal(c)
    ensures forall c :: c in Tier(out) <==> c in out
    ensures forall i, j :: 0 <= i < j < |Tier(out)| ==> AheadByScore(Tier(out)[i], Tier(out)[j])
  {
    hide TextLe;
    hide Tier;
    hide Year;
    NoneNamed(out);
    assert forall c :: c in out ==> !Original(c);
    WholeTier(out);
    forall i, j | 0 <= i < j < |Tier(out)| ensures AheadByScore(Tier(out)[i], Tier(out)[j]) {
      assert ByScoreDate(Tier(out)[i], Tier(out)[j]);
    }
  }

  /** What follows the collapsed tier is in order of score and date. */
  lemma RestIs(rest: seq<Candidate>)
    requires SortedBy(rest, ByScoreDate)
    ensures forall i, j :: 0 <= i < j < |rest| ==> AheadByScore(rest[i], rest[j])
  {
    hide TextLe;
    forall i, j | 0 <= i < j < |rest| ensures AheadByScore(rest[i], rest[j]) {
      assert ByScoreDate(rest[i], rest[j]);
    }
  }

  /** The year an edition is preferred by; none, and 0, count as the last. */
  ghost function EditionYear(c: Candidate): int
  {
    match Year(c.row.date)
    case Some(y) => if y > 0 then y else 9999
    case None => 9999
  }

  /** A group is represented by an official edition if it has one, and among its like by one of the earliest. */
  lemma RepresentedByEarliestOfficial(t: seq<Candidate>, g: string)
    requires HasGroup(t, g)
    ensures Best(t, g) in t && Best(t, g).row.group == g
    ensures forall c :: c in t && c.row.group == g ==>
      && (c.row.status == "Official" ==> Best(t, g).row.status == "Official")
      && ((c.row.status == "Official" <==> Best(t, g).row.status == "Official") ==>
            EditionYear(Best(t, g)) <= EditionYear(c))
  {
    BestFacts(t, g);
    hide Year;
    hide Best;
  }
}
