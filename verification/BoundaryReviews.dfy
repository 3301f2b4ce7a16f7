/**
 Folding reviewed boundary edits into the catalogue, as tools/apply_boundary_reviews.py does it: the
 catalogue is committed first and the review stamps second, in two files that are not atomic together.

 The tables are maps. `Step` is one pass of the pending loop and `Run` the whole loop; the class below
 performs them with a crash point, and `Exec` is any number of its runs, each cut short or not.
 */
module BoundaryReviews {
  import opened Optional
  import opened OrderedIds

  datatype Span = Span(start: int, end: int)

  datatype Levels = Levels(leadIn: Option<int>, leadOut: Option<int>, gain: Option<real>)

  datatype Passage = Passage(
    file: int, kind: string, span: Span, levels: Levels,
    fadeIn: int, fadeOut: int, fadeInCurve: string, fadeOutCurve: string, source: string)

  datatype Review = Review(
    span: Span, levels: Levels,
    fadeIn: Option<int>, fadeOut: Option<int>, fadeInCurve: Option<string>, fadeOutCurve: Option<string>)

  /** What a cached feature row describes: a stretch of audio. */
  datatype Extract = Extract(audio: string, span: Span)

  datatype Catalogue = Catalogue(files: map<int, string>, passages: map<int, Passage>, cache: set<Extract>)

  type Reviews = map<int, Review>

  // ------------------------------------------------------------ table constraints

  /** CHECK (end_ms > start_ms) */
  predicate Proper(s: Span)
  {
    s.start < s.end
  }

  predicate SamePlace(p: Passage, q: Passage)
  {
    p.file == q.file && p.kind == q.kind && p.span == q.span
  }

  /** Every passage has a file and a proper span, and no two share (file, kind, start, end). */
  ghost predicate Valid(c: Catalogue)
  {
    && (forall i :: i in c.passages ==> c.passages[i].file in c.files && Proper(c.passages[i].span))
    && (forall i, j :: i in c.passages && j in c.passages && i != j ==> !SamePlace(c.passages[i], c.passages[j]))
  }

  function Key(c: Catalogue, p: Passage): Extract
    requires p.file in c.files
  {
    Extract(c.files[p.file], p.span)
  }

  ghost predicate Occupied(c: Catalogue, e: Extract)
    requires Valid(c)
  {
    exists i :: i in c.passages && c.files[c.passages[i].file] == e.audio && c.passages[i].span == e.span
  }

  /** Every cached extract belongs to some passage. */
  ghost predicate Covered(c: Catalogue)
    requires Valid(c)
  {
    forall e :: e in c.cache ==> Occupied(c, e)
  }

  // -------------------------------------------------------------------- one edit

  function Or<T>(o: Option<T>, default: T): T
  {
    match o
    case None => default
    case Some(v) => v
  }

  /** The passage as an edit leaves it; a draft without a fade keeps the passage's own. */
  function Edited(p: Passage, r: Review): Passage
  {
    p.(span := r.span, levels := r.levels,
       fadeIn := Or(r.fadeIn, p.fadeIn), fadeOut := Or(r.fadeOut, p.fadeOut),
       fadeInCurve := Or(r.fadeInCurve, p.fadeInCurve), fadeOutCurve := Or(r.fadeOutCurve, p.fadeOutCurve),
       source := "manual")
  }

  /** p1 is p0 with every value the review gives, field by field, and set by hand; where it is stays as it was. */
  ghost predicate Carries(p1: Passage, p0: Passage, r: Review)
  {
    && p1.file == p0.file && p1.kind == p0.kind && p1.source == "manual"
    && p1.span.start == r.span.start && p1.span.end == r.span.end
    && p1.levels.leadIn == r.levels.leadIn && p1.levels.leadOut == r.levels.leadOut && p1.levels.gain == r.levels.gain
    && (if r.fadeIn.Some? then p1.fadeIn == r.fadeIn.value else p1.fadeIn == p0.fadeIn)
    && (if r.fadeOut.Some? then p1.fadeOut == r.fadeOut.value else p1.fadeOut == p0.fadeOut)
    && (if r.fadeInCurve.Some? then p1.fadeInCurve == r.fadeInCurve.value else p1.fadeInCurve == p0.fadeInCurve)
    && (if r.fadeOutCurve.Some? then p1.fadeOutCurve == r.fadeOutCurve.value else p1.fadeOutCurve == p0.fadeOutCurve)
  }

  lemma EditedCarries(p: Passage, r: Review)
    ensures Carries(Edited(p, r), p, r)
    ensures forall p1 :: Carries(p1, p, r) ==> p1 == Edited(p, r)
  {
  }

  predicate Moved(c: Catalogue, i: int, r: Review)
    requires i in c.passages
  {
    r.span != c.passages[i].span
  }

  /** Another passage of the file and kind already holds the edit's span. */
  predicate Collides(c: Catalogue, i: int, r: Review)
    requires i in c.passages
  {
    exists j :: j in c.passages && j != i && SamePlace(c.passages[j], c.passages[i].(span := r.span))
  }

  predicate Refused(c: Catalogue, i: int, r: Review)
    requires i in c.passages
  {
    Moved(c, i, r) && Collides(c, i, r)
  }

  /** Another passage, of any file with this audio, still uses the extract. */
  predicate StillUsed(c: Catalogue, i: int, e: Extract)
  {
    exists j :: j in c.passages && j != i && c.passages[j].file in c.files && Key(c, c.passages[j]) == e
  }

  function Landed(c: Catalogue, i: int, r: Review): Catalogue
    requires i in c.passages && c.passages[i].file in c.files
  {
    var p := c.passages[i];
    var c1 := c.(passages := c.passages[i := Edited(p, r)]);
    if Moved(c, i, r) && !StillUsed(c1, i, Key(c, p)) then c1.(cache := c.cache - {Key(c, p)}) else c1
  }

  datatype Outcome = Aborted | Done(catalogue: Catalogue, stamps: set<int>)

  /** One pass of the loop: refused, or written; an improper span fails its CHECK and ends the run. */
  function Step(c: Catalogue, stamps: set<int>, i: int, r: Review): Outcome
    requires i in c.passages && c.passages[i].file in c.files
  {
    if Refused(c, i, r) then Done(c, stamps)
    else if !Proper(r.span) then Aborted
    else Done(Landed(c, i, r), stamps + {i})
  }

  ghost predicate Runnable(c: Catalogue, rs: Reviews, ids: seq<int>)
  {
    forall i :: i in ids ==> i in rs && i in c.passages
  }

  lemma StepFacts(c: Catalogue, stamps: set<int>, i: int, r: Review)
    requires Valid(c) && i in c.passages && Step(c, stamps, i, r).Done?
    ensures var c' := Step(c, stamps, i, r).catalogue;
      && Valid(c') && c'.files == c.files && c'.passages.Keys == c.passages.Keys
      && c'.passages == c.passages[i := c'.passages[i]]
      && c'.passages[i] == (if Refused(c, i, r) then c.passages[i] else Edited(c.passages[i], r))
  {
    var c' := Step(c, stamps, i, r).catalogue;
    if !Refused(c, i, r) {
      forall j | j in c'.passages && j != i
        ensures !SamePlace(c'.passages[i], c'.passages[j]) && !SamePlace(c'.passages[j], c'.passages[i])
      {
        if !Moved(c, i, r) {
          assert !SamePlace(c.passages[i], c.passages[j]);
        }
      }
    }
  }

  /** The pending loop over a list of passages. */
  ghost function Run(c: Catalogue, rs: Reviews, ids: seq<int>): (o: Outcome)
    requires Valid(c) && Runnable(c, rs, ids)
    ensures o.Done? ==> Valid(o.catalogue) && o.catalogue.files == c.files
                        && o.catalogue.passages.Keys == c.passages.Keys
  {
    if ids == [] then Done(c, {})
    else
      var n := |ids| - 1;
      assert ids == ids[..n] + [ids[n]];
      match Run(c, rs, ids[..n])
      case Aborted => Aborted
      case Done(c1, s1) =>
        var o := Step(c1, s1, ids[n], rs[ids[n]]);
        assert o.Done? ==> Valid(o.catalogue) by {
          if o.Done? {
            StepFacts(c1, s1, ids[n], rs[ids[n]]);
          }
        }
        assert o.Done? ==> o.catalogue.files == c.files && o.catalogue.passages.Keys == c.passages.Keys;
        o
  }

  lemma RunLonger(c: Catalogue, rs: Reviews, ids: seq<int>, i: int)
    requires Valid(c) && Runnable(c, rs, ids + [i]) && Runnable(c, rs, ids)
    ensures i in rs && i in c.passages
    ensures Run(c, rs, ids + [i])
      == if Run(c, rs, ids).Aborted? then Aborted
         else Step(Run(c, rs, ids).catalogue, Run(c, rs, ids).stamps, i, rs[i])
  {
    assert (ids + [i])[..|ids|] == ids;
    assert i in ids + [i];
  }

  /** Exactly the stamped passages carry their edits. */
  lemma {:induction false} RunEdits(c: Catalogue, rs: Reviews, ids: seq<int>)
    requires Valid(c) && Runnable(c, rs, ids) && Distinct(ids) && Run(c, rs, ids).Done?
    ensures forall i :: i in Run(c, rs, ids).stamps ==> i in ids
    ensures forall i :: i in c.passages ==>
      Run(c, rs, ids).catalogue.passages[i]
      == if i in Run(c, rs, ids).stamps then Edited(c.passages[i], rs[i]) else c.passages[i]
  {
    if ids != [] {
      var n := |ids| - 1;
      assert ids == ids[..n] + [ids[n]];
      RunEdits(c, rs, ids[..n]);
      var o := Run(c, rs, ids[..n]);
      StepFacts(o.catalogue, o.stamps, ids[n], rs[ids[n]]);
      assert ids[n] !in ids[..n];
    }
  }

  /**
   What a finished run did: exactly the stamped passages carry their reviews, value by value, every other
   passage is as it was, and uniqueness of (file, kind, start, end) holds throughout.
   */
  lemma RunFacts(c: Catalogue, rs: Reviews, ids: seq<int>)
    requires Valid(c) && Runnable(c, rs, ids) && Distinct(ids) && Run(c, rs, ids).Done?
    ensures var c', stamps := Run(c, rs, ids).catalogue, Run(c, rs, ids).stamps;
      && Valid(c') && c'.files == c.files && c'.passages.Keys == c.passages.Keys
      && (forall i :: i in stamps ==> i in ids && Carries(c'.passages[i], c.passages[i], rs[i]))
      && (forall i :: i in c.passages && i !in stamps ==> c'.passages[i] == c.passages[i])
  {
    hide Carries;
    hide Edited;
    RunEdits(c, rs, ids);
    forall i | i in Run(c, rs, ids).stamps
      ensures Carries(Run(c, rs, ids).catalogue.passages[i], c.passages[i], rs[i])
    {
      EditedCarries(c.passages[i], rs[i]);
    }
  }

  /** No other passage of its file and kind is where the review would put it. */
  ghost predicate Fits(c: Catalogue, i: int, r: Review)
    requires i in c.passages
  {
    forall j :: j in c.passages && j != i ==>
      !(c.passages[j].file == c.passages[i].file && c.passages[j].kind == c.passages[i].kind
        && c.passages[j].span == r.span)
  }

  lemma RefusedUnlessFits(c: Catalogue, i: int, r: Review)
    requires Valid(c) && i in c.passages
    ensures Refused(c, i, r) <==> !Fits(c, i, r)
  {
    forall j | j in c.passages && j != i
      ensures SamePlace(c.passages[j], c.passages[i].(span := r.span))
         <==> c.passages[j].file == c.passages[i].file && c.passages[j].kind == c.passages[i].kind
              && c.passages[j].span == r.span
    {
    }
    if !Fits(c, i, r) {
      var j :| j in c.passages && j != i && c.passages[j].file == c.passages[i].file
               && c.passages[j].kind == c.passages[i].kind && c.passages[j].span == r.span;
      assert !SamePlace(c.passages[i], c.passages[j]);
    }
  }

  lemma LastStampedIff(c: Catalogue, rs: Reviews, init: seq<int>, i: int)
    requires Valid(c) && Runnable(c, rs, init + [i]) && Runnable(c, rs, init) && Distinct(init + [i])
    requires Run(c, rs, init + [i]).Done?
    ensures Run(c, rs, init).Done? && i in rs && i in Run(c, rs, init).catalogue.passages
    ensures i in Run(c, rs, init + [i]).stamps <==> Fits(Run(c, rs, init).catalogue, i, rs[i])
    ensures forall j :: j in init ==> (j in Run(c, rs, init + [i]).stamps <==> j in Run(c, rs, init).stamps)
  {
    hide Refused;
    hide Fits;
    hide Landed;
    RunLonger(c, rs, init, i);
    var o := Run(c, rs, init);
    RunEdits(c, rs, init);
    RefusedUnlessFits(o.catalogue, i, rs[i]);
    assert i !in init by {
      assert (init + [i])[|init|] == i;
    }
  }

  /** A review is stamped exactly when its span is free at its turn. */
  lemma {:induction false} StampedIff(c: Catalogue, rs: Reviews, ids: seq<int>, n: nat)
    requires Valid(c) && Runnable(c, rs, ids) && Distinct(ids) && Run(c, rs, ids).Done? && n < |ids|
    ensures Runnable(c, rs, ids[..n]) && Run(c, rs, ids[..n]).Done?
    ensures ids[n] in Run(c, rs, ids).stamps <==> Fits(Run(c, rs, ids[..n]).catalogue, ids[n], rs[ids[n]])
  {
    hide Fits;
    hide Run;
    hide Valid;
    var m := |ids| - 1;
    var init := ids[..m];
    assert ids == init + [ids[m]];
    LastStampedIff(c, rs, init, ids[m]);
    if n < m {
      StampedIff(c, rs, init, n);
      assert init[..n] == ids[..n] && ids[n] == init[n];
    } else {
      assert init == ids[..n];
    }
  }

  /** A run fails exactly when some pending span is improper: such a span never collides. */
  lemma {:induction false} AbortsIff(c: Catalogue, rs: Reviews, ids: seq<int>)
    requires Valid(c) && Runnable(c, rs, ids)
    ensures Run(c, rs, ids).Aborted? <==> exists i :: i in ids && rs[i].span.end <= rs[i].span.start
  {
    if ids != [] {
      var n := |ids| - 1;
      var init, last := ids[..n], ids[n];
      assert ids == init + [last];
      AbortsIff(c, rs, init);
      assert last in ids && last in rs && last in c.passages;
      if Run(c, rs, init).Done? {
        var c1 := Run(c, rs, init).catalogue;
        ImproperNeverCollides(c1, last, rs[last]);
      }
    }
  }

  lemma ImproperNeverCollides(c: Catalogue, i: int, r: Review)
    requires Valid(c) && i in c.passages
    ensures !Proper(r.span) ==> !Collides(c, i, r)
  {
  }

  // ------------------------------------------------------------------ the cache

  /** A step deletes exactly the extract it left, when no passage is on it any more. */
  lemma StepCache(c: Catalogue, stamps: set<int>, i: int, r: Review)
    requires Valid(c) && i in c.passages && Step(c, stamps, i, r).Done?
    ensures Valid(Step(c, stamps, i, r).catalogue)
    ensures forall e ::
      (e in Step(c, stamps, i, r).catalogue.cache
       <==> e in c.cache && (Occupied(c, e) ==> Occupied(Step(c, stamps, i, r).catalogue, e)))
    ensures forall e :: Occupied(c, e) && !Occupied(Step(c, stamps, i, r).catalogue, e) ==>
      e == Key(c, c.passages[i])
  {
    hide Refused;
    hide Edited;
    StepFacts(c, stamps, i, r);
    var c' := Step(c, stamps, i, r).catalogue;
    var left := Key(c, c.passages[i]);
    OccupiedAt(c, i);
    forall e | Occupied(c, e) && e != left ensures Occupied(c', e) {
      var j :| j in c.passages && c.files[c.passages[j].file] == e.audio && c.passages[j].span == e.span;
      OccupiedAt(c', j);
    }
    if !Refused(c, i, r) {
      var c1 := c.(passages := c'.passages);
      EditedCarries(c.passages[i], r);
      assert c1.passages == c.passages[i := Edited(c.passages[i], r)];
      if Moved(c, i, r) {
        UsedIsOccupied(c1, i, left);
        assert Occupied(c1, left) <==> Occupied(c', left);
      } else {
        OccupiedAt(c', i);
      }
    }
  }

  lemma OccupiedAt(c: Catalogue, i: int)
    requires Valid(c) && i in c.passages
    ensures Occupied(c, Key(c, c.passages[i]))
  {
  }

  /** Where a passage has moved away, others on the extract are all that are on it. */
  lemma UsedIsOccupied(c: Catalogue, i: int, e: Extract)
    requires Valid(c) && i in c.passages && c.passages[i].span != e.span
    ensures StillUsed(c, i, e) <==> Occupied(c, e)
  {
    if Occupied(c, e) {
      var j :| j in c.passages && c.files[c.passages[j].file] == e.audio && c.passages[j].span == e.span;
      assert Key(c, c.passages[j]) == e;
    }
  }

  ghost predicate OccupiedThroughout(c: Catalogue, rs: Reviews, ids: seq<int>, n: nat, e: Extract)
    requires Valid(c) && Runnable(c, rs, ids) && n <= |ids|
  {
    forall m :: 0 <= m <= n ==> Run(c, rs, ids[..m]).Done? && Occupied(Run(c, rs, ids[..m]).catalogue, e)
  }

  lemma {:induction false} PrefixDone(c: Catalogue, rs: Reviews, ids: seq<int>, m: nat)
    requires Valid(c) && Runnable(c, rs, ids) && m <= |ids| && Run(c, rs, ids).Done?
    ensures Run(c, rs, ids[..m]).Done?
  {
    if m == |ids| {
      assert ids[..m] == ids;
    } else {
      var n := |ids| - 1;
      PrefixDone(c, rs, ids[..n], m);
      assert ids[..n][..m] == ids[..m];
    }
  }

  /**
   Over a batch the cache stays covered, and a row survives exactly when its extract was some passage's
   after every edit: it goes when the last passage leaves it, even if another comes to it later.
   */
  lemma {:induction false} RunCache(c: Catalogue, rs: Reviews, ids: seq<int>)
    requires Valid(c) && Covered(c) && Runnable(c, rs, ids) && Run(c, rs, ids).Done?
    ensures Covered(Run(c, rs, ids).catalogue)
    ensures forall e ::
      (e in Run(c, rs, ids).catalogue.cache <==> e in c.cache && OccupiedThroughout(c, rs, ids, |ids|, e))
  {
    if ids == [] {
      forall e | e in c.cache ensures OccupiedThroughout(c, rs, ids, 0, e) {
        assert ids[..0] == [];
      }
    } else {
      var n := |ids| - 1;
      var init := ids[..n];
      assert ids == init + [ids[n]];
      RunCache(c, rs, init);
      var o := Run(c, rs, init);
      StepCache(o.catalogue, o.stamps, ids[n], rs[ids[n]]);
      forall e
        ensures OccupiedThroughout(c, rs, ids, |ids|, e)
           <==> OccupiedThroughout(c, rs, init, n, e) && Occupied(Run(c, rs, ids).catalogue, e)
      {
        ThroughoutLonger(c, rs, ids, e);
      }
      forall e | OccupiedThroughout(c, rs, init, n, e) ensures Occupied(o.catalogue, e) {
        assert init[..n] == init;
      }
    }
  }

  lemma ThroughoutLonger(c: Catalogue, rs: Reviews, ids: seq<int>, e: Extract)
    requires Valid(c) && Runnable(c, rs, ids) && Run(c, rs, ids).Done? && ids != []
    ensures Runnable(c, rs, ids[..|ids| - 1])
    ensures OccupiedThroughout(c, rs, ids, |ids|, e)
       <==> OccupiedThroughout(c, rs, ids[..|ids| - 1], |ids| - 1, e) && Occupied(Run(c, rs, ids).catalogue, e)
  {
    hide Run;
    hide Occupied;
    hide Valid;
    var n := |ids| - 1;
    forall m | 0 <= m <= n ensures ids[..m] == ids[..n][..m] {
    }
    assert ids[..|ids|] == ids;
  }

  // ------------------------------------------------------------------ rehearsal

  /** What a rehearsal reports it would apply: each edit judged against the rows as they are. */
  ghost function Rehearsed(c: Catalogue, rs: Reviews, ids: seq<int>): set<int>
    requires Runnable(c, rs, ids)
  {
    set i | i in ids && !Refused(c, i, rs[i])
  }

  /** p's new span is q's new span, or the span q leaves, on one file and kind. */
  ghost predicate Interferes(c: Catalogue, rs: Reviews, q: int, p: int)
    requires q in c.passages && p in c.passages && q in rs && p in rs
  {
    && Moved(c, q, rs[q]) && Moved(c, p, rs[p])
    && c.passages[p].file == c.passages[q].file && c.passages[p].kind == c.passages[q].kind
    && (rs[p].span == rs[q].span || rs[p].span == c.passages[q].span)
  }

  /** No edit interferes with an earlier one that the rehearsal accepts. */
  ghost predicate Independent(c: Catalogue, rs: Reviews, ids: seq<int>)
    requires Runnable(c, rs, ids)
  {
    forall a, b :: 0 <= a < b < |ids| && ids[a] in Rehearsed(c, rs, ids) ==>
      !Interferes(c, rs, ids[a], ids[b])
  }

  ghost predicate AllProper(rs: Reviews, ids: seq<int>)
    requires forall i :: i in ids ==> i in rs
  {
    forall i :: i in ids ==> Proper(rs[i].span)
  }

  /** c1 is c with the rehearsed edits among ids made. */
  ghost predicate MadeAsRehearsed(c: Catalogue, rs: Reviews, ids: seq<int>, c1: Catalogue)
    requires Runnable(c, rs, ids)
  {
    && c1.files == c.files && c1.passages.Keys == c.passages.Keys
    && forall i :: i in c.passages ==>
         c1.passages[i] == if i in Rehearsed(c, rs, ids) then Edited(c.passages[i], rs[i]) else c.passages[i]
  }

  /**
   Whether p collides after the rehearsed edits, when an accepted edit q interferes with it: it is the
   other way about.
   */
  lemma InterferenceShows(c: Catalogue, rs: Reviews, ids: seq<int>, c1: Catalogue, q: int, p: int)
    requires Valid(c) && Valid(c1) && Runnable(c, rs, ids) && MadeAsRehearsed(c, rs, ids, c1)
    requires q in Rehearsed(c, rs, ids) && p in c.passages && p in rs && p !in ids
    requires Interferes(c, rs, q, p)
    ensures Refused(c1, p, rs[p]) <==> !Refused(c, p, rs[p])
  {
    var goal := c.passages[p].(span := rs[p].span);
    if rs[p].span == c.passages[q].span {
      assert SamePlace(c.passages[q], goal);
      assert Refused(c, p, rs[p]);
      forall j | j in c1.passages && j != p ensures !SamePlace(c1.passages[j], goal) {
        if j == q {
        } else if j in Rehearsed(c, rs, ids) {
          HeldSpanRefuses(c, rs, q, j, goal);
        } else {
          assert !SamePlace(c.passages[j], c.passages[q]);
        }
      }
    } else {
      assert SamePlace(c1.passages[q], goal);
      assert Refused(c1, p, rs[p]);
      forall j | j in c.passages && j != p ensures !SamePlace(c.passages[j], goal) {
        if j != q {
          HeldSpanRefuses(c, rs, j, q, goal);
        }
      }
    }
  }

  /** An edit to a place another passage holds is refused, if it moves. */
  lemma HeldSpanRefuses(c: Catalogue, rs: Reviews, holder: int, j: int, goal: Passage)
    requires Valid(c) && holder in c.passages && j in c.passages && j in rs && j != holder
    requires !Refused(c, j, rs[j])
    ensures SamePlace(c.passages[holder], goal) ==> !SamePlace(Edited(c.passages[j], rs[j]), goal)
  {
    assert !SamePlace(c.passages[holder], c.passages[j]);
  }

  /** Without interference, p collides after the rehearsed edits exactly when it did before them. */
  lemma NoInterferenceNoChange(c: Catalogue, rs: Reviews, ids: seq<int>, c1: Catalogue, p: int)
    requires Valid(c) && Runnable(c, rs, ids) && MadeAsRehearsed(c, rs, ids, c1)
    requires p in c.passages && p in rs && p !in ids
    requires forall q :: q in Rehearsed(c, rs, ids) ==> !Interferes(c, rs, q, p)
    ensures Refused(c1, p, rs[p]) <==> Refused(c, p, rs[p])
  {
    var goal := c.passages[p].(span := rs[p].span);
    if Moved(c, p, rs[p]) {
      forall j | j in c.passages && j != p
        ensures SamePlace(c.passages[j], goal) <==> SamePlace(c1.passages[j], goal)
      {
        if j in Rehearsed(c, rs, ids) {
          assert !Interferes(c, rs, j, p);
        }
      }
    }
  }

  lemma StepStamps(c: Catalogue, stamps: set<int>, i: int, r: Review)
    requires Valid(c) && i in c.passages && Step(c, stamps, i, r).Done?
    ensures forall j :: j != i ==> (j in Step(c, stamps, i, r).stamps <==> j in stamps)
  {
  }

  lemma {:induction false} PrefixStamps(c: Catalogue, rs: Reviews, ids: seq<int>, m: nat)
    requires Valid(c) && Runnable(c, rs, ids) && Distinct(ids) && m <= |ids| && Run(c, rs, ids).Done?
    ensures Run(c, rs, ids[..m]).Done?
    ensures forall i :: i in ids[..m] ==> (i in Run(c, rs, ids).stamps <==> i in Run(c, rs, ids[..m]).stamps)
  {
    hide Run;
    hide Step;
    hide Valid;
    if m == |ids| {
      assert ids[..m] == ids;
    } else {
      var n := |ids| - 1;
      var init, p := ids[..n], ids[n];
      assert ids == init + [p];
      RunLonger(c, rs, init, p);
      PrefixStamps(c, rs, init, m);
      var o := Run(c, rs, init);
      StepStamps(o.catalogue, o.stamps, p, rs[p]);
      assert init[..m] == ids[..m];
      assert p !in ids[..m];
    }
  }

  /** Independence of a list is independence of its beginning, and of the last edit from the accepted ones. */
  lemma IndependentInit(c: Catalogue, rs: Reviews, init: seq<int>, p: int)
    requires Runnable(c, rs, init + [p]) && Runnable(c, rs, init) && Independent(c, rs, init + [p])
    ensures p in rs && p in c.passages && Independent(c, rs, init)
    ensures forall q :: q in Rehearsed(c, rs, init) ==> !Interferes(c, rs, q, p)
  {
    var ids := init + [p];
    assert p in ids;
    forall a, b | 0 <= a < b < |init| && init[a] in Rehearsed(c, rs, init)
      ensures !Interferes(c, rs, init[a], init[b])
    {
      assert ids[a] in Rehearsed(c, rs, ids) && ids[b] == init[b];
    }
    forall q | q in Rehearsed(c, rs, init) ensures !Interferes(c, rs, q, p) {
      var a :| 0 <= a < |init| && init[a] == q;
      assert ids[a] in Rehearsed(c, rs, ids) && ids[|init|] == p;
    }
  }

  /** A step decided as the rehearsal decided it continues what the rehearsal reports. */
  lemma StepFollowsRehearsal(c: Catalogue, rs: Reviews, init: seq<int>, p: int, c1: Catalogue, s1: set<int>)
    requires Runnable(c, rs, init + [p]) && Runnable(c, rs, init) && p !in init && p in rs && p in c.passages
    requires Valid(c1) && MadeAsRehearsed(c, rs, init, c1) && s1 == Rehearsed(c, rs, init) && Proper(rs[p].span)
    requires Refused(c1, p, rs[p]) <==> Refused(c, p, rs[p])
    ensures var o := Step(c1, s1, p, rs[p]);
      o.Done? && o.stamps == Rehearsed(c, rs, init + [p]) && MadeAsRehearsed(c, rs, init + [p], o.catalogue)
  {
    hide Refused;
    StepFacts(c1, s1, p, rs[p]);
    assert Rehearsed(c, rs, init + [p]) == s1 + if Refused(c, p, rs[p]) then {} else {p};
  }

  /** A commit makes the edits a rehearsal accepts, up to the first interference. */
  lemma {:induction false} CommitFollowsRehearsal(c: Catalogue, rs: Reviews, ids: seq<int>)
    requires Valid(c) && Runnable(c, rs, ids) && Distinct(ids) && AllProper(rs, ids) && Independent(c, rs, ids)
    ensures Run(c, rs, ids).Done? && Run(c, rs, ids).stamps == Rehearsed(c, rs, ids)
    ensures MadeAsRehearsed(c, rs, ids, Run(c, rs, ids).catalogue)
  {
    if ids != [] {
      hide Valid;
      hide Interferes;
      hide Refused;
      hide Independent;
      hide MadeAsRehearsed;
      hide Proper;
      hide Step;
      hide Run;
      var n := |ids| - 1;
      var init, p := ids[..n], ids[n];
      assert ids == init + [p] && p !in init;
      IndependentInit(c, rs, init, p);
      CommitFollowsRehearsal(c, rs, init);
      RunLonger(c, rs, init, p);
      var o := Run(c, rs, init);
      NoInterferenceNoChange(c, rs, init, o.catalogue, p);
      StepFollowsRehearsal(c, rs, init, p, o.catalogue, o.stamps);
    }
  }

  /** An edit that interferes with an accepted one before it is decided differently by a commit. */
  lemma InterferenceDiffers(c: Catalogue, rs: Reviews, ids: seq<int>, a: nat, b: nat)
    requires Valid(c) && Runnable(c, rs, ids) && Distinct(ids) && AllProper(rs, ids)
    requires a < b < |ids| && Independent(c, rs, ids[..b])
    requires ids[a] in Rehearsed(c, rs, ids) && Interferes(c, rs, ids[a], ids[b])
    ensures Run(c, rs, ids).Done? && Run(c, rs, ids).stamps != Rehearsed(c, rs, ids)
  {
    hide Interferes;
    hide Refused;
    hide Valid;
    hide Independent;
    hide MadeAsRehearsed;
    hide Run;
    var init, p := ids[..b], ids[b];
    CommitFollowsRehearsal(c, rs, init);
    var o := Run(c, rs, init);
    assert init[a] == ids[a] && ids[a] in init;
    InterferenceShows(c, rs, init, o.catalogue, ids[a], p);
    assert ids[..b + 1] == init + [p];
    RunLonger(c, rs, init, p);
    AbortsIff(c, rs, ids);
    PrefixStamps(c, rs, ids, b + 1);
    assert p in ids[..b + 1] && p in ids && p !in init;
    assert p in Run(c, rs, ids).stamps <==> !Refused(o.catalogue, p, rs[p]);
  }

  lemma IndependentGrows(c: Catalogue, rs: Reviews, ids: seq<int>, p: int)
    requires Runnable(c, rs, ids + [p]) && Runnable(c, rs, ids) && Independent(c, rs, ids)
    requires forall a :: 0 <= a < |ids| && ids[a] in Rehearsed(c, rs, ids) ==> !Interferes(c, rs, ids[a], p)
    ensures Independent(c, rs, ids + [p])
  {
    var all := ids + [p];
    forall a, b | 0 <= a < b < |all| && all[a] in Rehearsed(c, rs, all) ensures !Interferes(c, rs, all[a], all[b]) {
      assert all[a] == ids[a] && ids[a] in ids && ids[a] in Rehearsed(c, rs, ids);
    }
  }

  lemma {:induction false} FirstInterference(c: Catalogue, rs: Reviews, ids: seq<int>, n: nat) returns (a: nat, b: nat)
    requires Runnable(c, rs, ids) && n <= |ids| && !Independent(c, rs, ids[..n])
    ensures a < b < n && Independent(c, rs, ids[..b])
    ensures ids[a] in Rehearsed(c, rs, ids) && Interferes(c, rs, ids[a], ids[b])
  {
    a, b := 0, n - 1;
    var init := ids[..n - 1];
    assert ids[..n] == init + [ids[n - 1]];
    if !Independent(c, rs, init) {
      a, b := FirstInterference(c, rs, ids, n - 1);
    } else if x :| 0 <= x < |init| && init[x] in Rehearsed(c, rs, init) && Interferes(c, rs, init[x], ids[n - 1]) {
      a := x;
      assert ids[a] == init[a] && ids[a] in ids;
    } else {
      IndependentGrows(c, rs, init, ids[n - 1]);
    }
  }

  /**
   A rehearsal reports exactly the edits a commit applies if and only if every pending span is proper and
   no edit's new span is, on one file and kind, the new span of an earlier accepted edit or the span that
   edit leaves.
   */
  lemma RehearsalExactIff(c: Catalogue, rs: Reviews, ids: seq<int>)
    requires Valid(c) && Runnable(c, rs, ids) && Distinct(ids)
    ensures Run(c, rs, ids).Done? && Run(c, rs, ids).stamps == Rehearsed(c, rs, ids)
      <==> AllProper(rs, ids) && Independent(c, rs, ids)
  {
    AbortsIff(c, rs, ids);
    if AllProper(rs, ids) {
      if Independent(c, rs, ids) {
        CommitFollowsRehearsal(c, rs, ids);
      } else {
        assert ids[..|ids|] == ids;
        var a, b := FirstInterference(c, rs, ids, |ids|);
        InterferenceDiffers(c, rs, ids, a, b);
      }
    }
  }

  // Two passages of one file, the second to take the span that the first leaves.

  ghost function PassageFrom(start: int, end: int): Passage
  {
    Passage(1, "radio", Span(start, end), Levels(None, None, None), 20, 20, "exponential", "exponential", "auto")
  }

  ghost function ReviewTo(start: int, end: int): Review
  {
    Review(Span(start, end), Levels(None, None, None), None, None, None, None)
  }

  ghost function TwoPassages(): Catalogue
  {
    Catalogue(map[1 := "audio"], map[1 := PassageFrom(0, 10), 2 := PassageFrom(20, 30)], {})
  }

  ghost function SecondFollowsFirst(): Reviews
  {
    map[1 := ReviewTo(40, 50), 2 := ReviewTo(0, 10)]
  }

  /** The rehearsal refuses the second edit, which the commit makes. */
  lemma RehearsalReportsLess()
    ensures var c, rs := TwoPassages(), SecondFollowsFirst();
      && Valid(c) && Runnable(c, rs, [1, 2]) && Rehearsed(c, rs, [1, 2]) == {1}
      && Run(c, rs, [1, 2]).Done? && Run(c, rs, [1, 2]).stamps == {1, 2}
  {
    var c, rs, ids := TwoPassages(), SecondFollowsFirst(), [1, 2];
    assert Valid(c) && Runnable(c, rs, ids);
    RehearsedFirstOnly();
    FollowingStamped(c, rs);
  }

  lemma RehearsedFirstOnly()
    ensures Rehearsed(TwoPassages(), SecondFollowsFirst(), [1, 2]) == {1}
  {
    var c, rs := TwoPassages(), SecondFollowsFirst();
    assert !Collides(c, 1, rs[1]);
    assert 1 in c.passages && SamePlace(c.passages[1], c.passages[2].(span := rs[2].span));
    assert Refused(c, 2, rs[2]) && !Refused(c, 1, rs[1]);
  }

  lemma FollowingStamped(c: Catalogue, rs: Reviews)
    requires c == TwoPassages() && rs == SecondFollowsFirst() && Valid(c) && Runnable(c, rs, [1, 2])
    ensures Run(c, rs, [1, 2]).Done? && Run(c, rs, [1, 2]).stamps == {1, 2}
  {
    assert Run(c, rs, []) == Done(c, {});
    hide Run;
    hide Valid;
    assert [] + [1] == [1] && [1] + [2] == [1, 2];
    RunLonger(c, rs, [], 1);
    RunLonger(c, rs, [1], 2);
    FirstLands(c, rs);
    SecondLands(c, rs);
  }

  lemma FirstLands(c: Catalogue, rs: Reviews)
    requires c == TwoPassages() && rs == SecondFollowsFirst()
    ensures Step(c, {}, 1, rs[1]) == Done(Landed(c, 1, rs[1]), {1})
  {
    hide Landed;
    assert !Collides(c, 1, rs[1]);
  }

  lemma SecondLands(c: Catalogue, rs: Reviews)
    requires c == TwoPassages() && rs == SecondFollowsFirst()
    ensures var c1 := Landed(c, 1, rs[1]);
      && 2 in c1.passages && c1.passages[2].file in c1.files
      && Step(c1, {1}, 2, rs[2]) == Done(Landed(c1, 2, rs[2]), {1, 2})
  {
    var c1 := Landed(c, 1, rs[1]);
    assert c1.passages == c.passages[1 := Edited(c.passages[1], rs[1])];
    assert !Collides(c1, 2, rs[2]);
  }

  /** One review with its end before its start, and nothing of the run is written. */
  lemma ImproperSpanAborts()
    ensures var c, rs := TwoPassages(), map[1 := ReviewTo(40, 50), 2 := ReviewTo(10, 0)];
      && Valid(c) && Runnable(c, rs, [1, 2]) && Run(c, rs, [1, 2]).Aborted?
  {
    var c, rs := TwoPassages(), map[1 := ReviewTo(40, 50), 2 := ReviewTo(10, 0)];
    assert Valid(c) && Runnable(c, rs, [1, 2]);
    assert 2 in [1, 2] && !Proper(rs[2].span);
    AbortsIff(c, rs, [1, 2]);
  }

  // ------------------------------------------------------------ two commits

  /** What the two files hold between runs. */
  datatype Durable = Durable(catalogue: Catalogue, stamped: set<int>)

  /** Where a committing run is cut short: before either commit, between them, or not at all. */
  datatype Cut = BeforeCatalogue | BetweenCommits | Finished

  /** The reviews the query selects: not stamped, with a passage. */
  ghost function PendingSet(c: Catalogue, rs: Reviews, stamped: set<int>): set<int>
  {
    set i | i in rs && i in c.passages && i !in stamped
  }

  ghost function Pending(c: Catalogue, rs: Reviews, stamped: set<int>): (ids: seq<int>)
    ensures Runnable(c, rs, ids) && Distinct(ids)
  {
    Ascending(PendingSet(c, rs, stamped))
  }

  /** The durable state one committing run leaves. */
  ghost function After(d: Durable, rs: Reviews, cut: Cut): (d': Durable)
    requires Valid(d.catalogue)
    ensures Valid(d'.catalogue)
  {
    match Run(d.catalogue, rs, Pending(d.catalogue, rs, d.stamped))
    case Aborted => d
    case Done(c, stamps) =>
      match cut
      case BeforeCatalogue => d
      case BetweenCommits => Durable(c, d.stamped)
      case Finished => Durable(c, d.stamped + stamps)
  }

  /** The durable state after a series of runs: every durable point is the end of some series. */
  ghost function Exec(d: Durable, rs: Reviews, cuts: seq<Cut>): (d': Durable)
    requires Valid(d.catalogue)
    ensures Valid(d'.catalogue)
  {
    if cuts == [] then d else After(Exec(d, rs, cuts[..|cuts| - 1]), rs, cuts[|cuts| - 1])
  }

  ghost predicate SettledAt(c: Catalogue, rs: Reviews, i: int)
  {
    i in rs && i in c.passages && c.passages[i] == Edited(c.passages[i], rs[i])
  }

  /** Applying an edit that has already landed changes nothing. */
  lemma SettledStep(c: Catalogue, rs: Reviews, stamps: set<int>, i: int)
    requires Valid(c) && SettledAt(c, rs, i)
    ensures Step(c, stamps, i, rs[i]) == Done(c, stamps + {i})
  {
    assert c.passages[i := Edited(c.passages[i], rs[i])] == c.passages;
  }

  /** Runs of a list and of the list without its landed edits end alike, but for the stamps of those. */
  ghost predicate RunsAlike(c: Catalogue, rs: Reviews, ids: seq<int>, less: seq<int>, e: set<int>)
    requires Valid(c) && Runnable(c, rs, ids) && Runnable(c, rs, less)
  {
    match Run(c, rs, less)
    case Aborted => Run(c, rs, ids).Aborted?
    case Done(c', s') => Run(c, rs, ids) == Done(c', s' + Among(ids, e))
  }

  lemma SettledLonger(c: Catalogue, rs: Reviews, ids: seq<int>, less: seq<int>, e: set<int>, i: int)
    requires Valid(c) && Runnable(c, rs, ids) && Runnable(c, rs, less) && Runnable(c, rs, ids + [i])
    requires Distinct(ids) && i !in ids && RunsAlike(c, rs, ids, less, e)
    requires i in e ==> SettledAt(c, rs, i)
    ensures i !in e ==> Runnable(c, rs, less + [i]) && RunsAlike(c, rs, ids + [i], less + [i], e)
    ensures i in e ==> RunsAlike(c, rs, ids + [i], less, e)
  {
    hide Valid;
    hide Run;
    RunLonger(c, rs, ids, i);
    AmongLonger(ids, i, e);
    assert i in rs && i in c.passages;
    if i !in e {
      RunLonger(c, rs, less, i);
      if Run(c, rs, less).Done? {
        var c', s' := Run(c, rs, less).catalogue, Run(c, rs, less).stamps;
        assert s' + Among(ids, e) + {i} == s' + {i} + Among(ids, e);
      }
    } else if Run(c, rs, less).Done? {
      RunEdits(c, rs, ids);
      var o := Run(c, rs, ids);
      SettledStep(o.catalogue, rs, o.stamps, i);
      assert o.stamps + {i} == Run(c, rs, less).stamps + (Among(ids, e) + {i});
    }
  }

  /** A run over edits of which some have landed does what a run without those does, and stamps them too. */
  lemma {:induction false} SettledAddNothing(c: Catalogue, rs: Reviews, ids: seq<int>, e: set<int>)
    requires Valid(c) && Runnable(c, rs, ids) && Distinct(ids)
    requires forall i :: i in e ==> SettledAt(c, rs, i)
    ensures Runnable(c, rs, Without(ids, e)) && RunsAlike(c, rs, ids, Without(ids, e), e)
  {
    if ids == [] {
      assert Among(ids, e) == {};
    } else {
      var n := |ids| - 1;
      var init, i := ids[..n], ids[n];
      assert ids == init + [i];
      SettledAddNothing(c, rs, init, e);
      WithoutLonger(init, i, e);
      assert i in ids && i !in init;
      SettledLonger(c, rs, init, Without(init, e), e, i);
      var less := if i in e then Without(init, e) else Without(init, e) + [i];
      assert Without(ids, e) == less;
      assert RunsAlike(c, rs, init + [i], less, e);
    }
  }

  /**
   x is what crashes made of a history of which y is the uninterrupted form: the same catalogue, with
   some landed edits not stamped yet.
   */
  ghost predicate Behind(x: Durable, y: Durable, rs: Reviews)
  {
    && x.catalogue == y.catalogue && x.stamped <= y.stamped
    && (forall i :: i in y.stamped - x.stamped ==> SettledAt(x.catalogue, rs, i))
    && (x != y ==> forall i :: i in PendingSet(x.catalogue, rs, x.stamped) ==> Proper(rs[i].span))
  }

  lemma PendingBehind(x: Durable, y: Durable, rs: Reviews)
    requires Valid(x.catalogue) && Behind(x, y, rs)
    ensures Without(Pending(x.catalogue, rs, x.stamped), y.stamped - x.stamped) == Pending(y.catalogue, rs, y.stamped)
    ensures Among(Pending(x.catalogue, rs, x.stamped), y.stamped - x.stamped) == y.stamped - x.stamped
  {
    var c, e := x.catalogue, y.stamped - x.stamped;
    AscendingWithout(PendingSet(c, rs, x.stamped), e);
    assert PendingSet(c, rs, x.stamped) - e == PendingSet(c, rs, y.stamped);
    AmongAll(Pending(c, rs, x.stamped), e);
  }

  /** A run from a state that is behind does the same to the catalogue, and stamps what was missing. */
  lemma BehindRuns(x: Durable, y: Durable, rs: Reviews)
    requires Valid(x.catalogue) && Behind(x, y, rs)
    ensures match Run(y.catalogue, rs, Pending(y.catalogue, rs, y.stamped))
            case Aborted => x == y
            case Done(c, s) =>
              Run(x.catalogue, rs, Pending(x.catalogue, rs, x.stamped)) == Done(c, s + (y.stamped - x.stamped))
  {
    PendingBehind(x, y, rs);
    SettledAddNothing(x.catalogue, rs, Pending(x.catalogue, rs, x.stamped), y.stamped - x.stamped);
    AbortsIff(x.catalogue, rs, Pending(x.catalogue, rs, x.stamped));
  }

  /** A run cut between its commits leaves its own edits landed and not stamped. */
  lemma BehindBetween(x: Durable, y: Durable, rs: Reviews)
    requires Valid(x.catalogue) && Behind(x, y, rs) && Run(x.catalogue, rs, Pending(x.catalogue, rs, x.stamped)).Done?
    ensures Behind(After(x, rs, BetweenCommits), After(y, rs, Finished), rs)
  {
    hide Pending;
    hide Valid;
    hide Run;
    BehindRuns(x, y, rs);
    var ids := Pending(x.catalogue, rs, x.stamped);
    var o := Run(x.catalogue, rs, ids);
    RunEdits(x.catalogue, rs, ids);
    AbortsIff(x.catalogue, rs, ids);
    var x', y' := After(x, rs, BetweenCommits), After(y, rs, Finished);
    forall i | i in y'.stamped - x'.stamped ensures SettledAt(x'.catalogue, rs, i) {
      LandedIsSettled(x, y, rs, o, i);
    }
    PendingProper(x, rs, o.catalogue);
  }

  lemma LandedIsSettled(x: Durable, y: Durable, rs: Reviews, o: Outcome, i: int)
    requires Behind(x, y, rs) && o.Done? && o.catalogue.passages.Keys == x.catalogue.passages.Keys
    requires forall j :: j in o.stamps ==> j in rs && j in x.catalogue.passages
    requires forall j :: j in x.catalogue.passages && (j in o.stamps ==> j in rs) ==>
      o.catalogue.passages[j]
      == if j in o.stamps then Edited(x.catalogue.passages[j], rs[j]) else x.catalogue.passages[j]
    requires i in o.stamps || i in y.stamped - x.stamped
    ensures SettledAt(o.catalogue, rs, i)
  {
    assert i in o.stamps || SettledAt(x.catalogue, rs, i);
  }

  lemma PendingProper(x: Durable, rs: Reviews, c: Catalogue)
    requires Valid(x.catalogue) && Run(x.catalogue, rs, Pending(x.catalogue, rs, x.stamped)).Done?
    requires c.passages.Keys == x.catalogue.passages.Keys
    ensures forall i :: i in PendingSet(c, rs, x.stamped) ==> Proper(rs[i].span)
  {
    AbortsIff(x.catalogue, rs, Pending(x.catalogue, rs, x.stamped));
    forall i | i in PendingSet(c, rs, x.stamped) ensures Proper(rs[i].span) {
      assert i in PendingSet(x.catalogue, rs, x.stamped);
    }
  }

  lemma BehindAfter(x: Durable, y: Durable, rs: Reviews, cut: Cut)
    requires Valid(x.catalogue) && Behind(x, y, rs)
    ensures cut == BeforeCatalogue ==> Behind(After(x, rs, cut), y, rs)
    ensures cut != BeforeCatalogue ==> Behind(After(x, rs, cut), After(y, rs, Finished), rs)
    ensures cut == Finished ==> After(x, rs, cut) == After(y, rs, Finished)
  {
    hide Pending;
    hide Valid;
    hide Run;
    BehindRuns(x, y, rs);
    if cut == BetweenCommits && Run(x.catalogue, rs, Pending(x.catalogue, rs, x.stamped)).Done? {
      BehindBetween(x, y, rs);
    }
  }

  /** How many runs of a series reached the catalogue commit. */
  function Reached(cuts: seq<Cut>): nat
  {
    if cuts == [] then 0
    else Reached(cuts[..|cuts| - 1]) + if cuts[|cuts| - 1] == BeforeCatalogue then 0 else 1
  }

  function Uninterrupted(n: nat): seq<Cut>
  {
    if n == 0 then [] else Uninterrupted(n - 1) + [Finished]
  }

  lemma BehindItself(d: Durable, rs: Reviews)
    ensures Behind(d, d, rs)
  {
  }

  /**
   Crashes cost nothing: after any series of runs the catalogue is what as many uninterrupted runs leave
   as reached the catalogue commit, no stamp is there that they would not make, and once a run finishes
   the stamps are theirs too.
   */
  lemma {:induction false} CrashesAreHarmless(d: Durable, rs: Reviews, cuts: seq<Cut>)
    requires Valid(d.catalogue)
    ensures Behind(Exec(d, rs, cuts), Exec(d, rs, Uninterrupted(Reached(cuts))), rs)
    ensures cuts != [] && cuts[|cuts| - 1] == Finished ==>
      Exec(d, rs, cuts) == Exec(d, rs, Uninterrupted(Reached(cuts)))
  {
    hide Valid;
    hide After;
    if cuts == [] {
      BehindItself(d, rs);
    } else {
      hide Behind;
      var init, cut := cuts[..|cuts| - 1], cuts[|cuts| - 1];
      CrashesAreHarmless(d, rs, init);
      var n := Reached(init);
      BehindAfter(Exec(d, rs, init), Exec(d, rs, Uninterrupted(n)), rs, cut);
      if cut != BeforeCatalogue {
        var more := Uninterrupted(n) + [Finished];
        assert more[..|more| - 1] == Uninterrupted(n);
      }
    }
  }

  /** A crash between the commits and a second run end where two uninterrupted runs do. */
  lemma CrashThenRerun(d: Durable, rs: Reviews)
    requires Valid(d.catalogue)
    ensures Exec(d, rs, [BetweenCommits, Finished]) == Exec(d, rs, [Finished, Finished])
  {
    var cuts := [BetweenCommits, Finished];
    assert cuts[..1] == [BetweenCommits] && cuts[..1][..0] == [];
    assert Reached(cuts[..1][..0]) == 0 && Reached(cuts[..1]) == 1;
    assert Reached(cuts) == Reached(cuts[..1]) + 1;
    assert Uninterrupted(1) == [Finished] && Uninterrupted(2) == [Finished, Finished];
    CrashesAreHarmless(d, rs, cuts);
  }

  /** x came from d by landing reviews: the stamped ones have landed, and nothing else has changed. */
  ghost predicate LandedFrom(d: Durable, x: Durable, rs: Reviews)
  {
    && d.stamped <= x.stamped
    && x.catalogue.passages.Keys == d.catalogue.passages.Keys
    && (forall i :: i in x.stamped - d.stamped ==>
          i in rs && i in d.catalogue.passages && Carries(x.catalogue.passages[i], d.catalogue.passages[i], rs[i]))
    && (forall i :: i in d.catalogue.passages && x.catalogue.passages[i] != d.catalogue.passages[i] ==>
          i in rs && i !in d.stamped && Carries(x.catalogue.passages[i], d.catalogue.passages[i], rs[i]))
  }

  /** A second edit by the same review leaves what the first did. */
  lemma CarriesTwice(p0: Passage, p1: Passage, p2: Passage, r: Review)
    requires Carries(p2, p1, r) && (p1 == p0 || Carries(p1, p0, r))
    ensures Carries(p2, p0, r)
  {
  }

  lemma RunLands(d: Durable, x: Durable, rs: Reviews, ids: seq<int>, o: Outcome, i: int)
    requires Valid(x.catalogue) && LandedFrom(d, x, rs) && Runnable(x.catalogue, rs, ids) && Distinct(ids)
    requires o == Run(x.catalogue, rs, ids) && o.Done? && i in d.catalogue.passages
    requires forall j :: j in ids ==> j !in x.stamped
    ensures o.catalogue.passages.Keys == x.catalogue.passages.Keys
    ensures i in o.stamps ==>
      i in rs && i !in x.stamped && Carries(o.catalogue.passages[i], d.catalogue.passages[i], rs[i])
    ensures i !in o.stamps ==> o.catalogue.passages[i] == x.catalogue.passages[i]
  {
    hide Carries;
    RunFacts(x.catalogue, rs, ids);
    hide Run;
    hide Valid;
    if i in o.stamps {
      assert i in ids;
      CarriesTwice(d.catalogue.passages[i], x.catalogue.passages[i], o.catalogue.passages[i], rs[i]);
    }
  }

  lemma AfterLands(d: Durable, x: Durable, rs: Reviews, cut: Cut)
    requires Valid(x.catalogue) && LandedFrom(d, x, rs)
    ensures LandedFrom(d, After(x, rs, cut), rs)
  {
    hide Carries;
    var ids := Pending(x.catalogue, rs, x.stamped);
    assert forall j :: j in ids ==> j !in x.stamped;
    hide Pending;
    var o := Run(x.catalogue, rs, ids);
    if o.Done? {
      RunFacts(x.catalogue, rs, ids);
      forall i | i in d.catalogue.passages
        ensures i in o.stamps ==>
          i in rs && i !in x.stamped && Carries(o.catalogue.passages[i], d.catalogue.passages[i], rs[i])
        ensures i !in o.stamps ==> o.catalogue.passages[i] == x.catalogue.passages[i]
      {
        RunLands(d, x, rs, ids, o, i);
      }
      hide Run;
      hide Valid;
      hide Runnable;
    }
  }

  /**
   At no durable point is a review stamped whose edit has not landed; and a passage is always either as
   it was or as its own review says.
   */
  lemma {:induction false} StampedHaveLanded(d: Durable, rs: Reviews, cuts: seq<Cut>)
    requires Valid(d.catalogue)
    ensures LandedFrom(d, Exec(d, rs, cuts), rs)
  {
    if cuts != [] {
      var init := cuts[..|cuts| - 1];
      StampedHaveLanded(d, rs, init);
      AfterLands(d, Exec(d, rs, init), rs, cuts[|cuts| - 1]);
    }
  }

  lemma PendingUnstamped(c: Catalogue, rs: Reviews, stamped: set<int>, n: nat)
    requires n < |Pending(c, rs, stamped)|
    ensures Pending(c, rs, stamped)[n] !in stamped
  {
    assert Pending(c, rs, stamped)[n] in Pending(c, rs, stamped);
  }

  /** A run that is not cut short stamps every pending review whose span is free at its turn, and no other. */
  lemma WholeRunStamps(x: Durable, rs: Reviews, n: nat)
    requires Valid(x.catalogue) && n < |Pending(x.catalogue, rs, x.stamped)|
    requires Run(x.catalogue, rs, Pending(x.catalogue, rs, x.stamped)).Done?
    ensures var y, ids := After(x, rs, Finished), Pending(x.catalogue, rs, x.stamped);
      && Runnable(x.catalogue, rs, ids[..n]) && Run(x.catalogue, rs, ids[..n]).Done?
      && (ids[n] in y.stamped <==> Fits(Run(x.catalogue, rs, ids[..n]).catalogue, ids[n], rs[ids[n]]))
      && (ids[n] in y.stamped ==> Carries(y.catalogue.passages[ids[n]], x.catalogue.passages[ids[n]], rs[ids[n]]))
  {
    hide Fits;
    hide Carries;
    var ids := Pending(x.catalogue, rs, x.stamped);
    PendingUnstamped(x.catalogue, rs, x.stamped, n);
    hide Pending;
    StampedIff(x.catalogue, rs, ids, n);
    RunFacts(x.catalogue, rs, ids);
    hide Run;
    hide Valid;
  }

  /** So after any series of runs, cut short or not, the next whole one stamps what is still to be landed. */
  lemma FinishedRunStamps(d: Durable, rs: Reviews, cuts: seq<Cut>, n: nat)
    requires Valid(d.catalogue)
    requires var x := Exec(d, rs, cuts);
      n < |Pending(x.catalogue, rs, x.stamped)| && Run(x.catalogue, rs, Pending(x.catalogue, rs, x.stamped)).Done?
    ensures var x, y := Exec(d, rs, cuts), Exec(d, rs, cuts + [Finished]);
      var ids := Pending(x.catalogue, rs, x.stamped);
      && Runnable(x.catalogue, rs, ids[..n]) && Run(x.catalogue, rs, ids[..n]).Done?
      && (ids[n] in y.stamped <==> Fits(Run(x.catalogue, rs, ids[..n]).catalogue, ids[n], rs[ids[n]]))
      && (ids[n] in y.stamped ==> Carries(y.catalogue.passages[ids[n]], x.catalogue.passages[ids[n]], rs[ids[n]]))
  {
    hide Fits;
    hide Carries;
    hide Run;
    hide Valid;
    hide Pending;
    assert (cuts + [Finished])[..|cuts|] == cuts;
    assert Exec(d, rs, cuts + [Finished]) == After(Exec(d, rs, cuts), rs, Finished);
    hide Exec;
    WholeRunStamps(Exec(d, rs, cuts), rs, n);
  }

  /**
   The other order would lose work: had the stamps landed alone, none of those edits would ever reach
   the catalogue, however many runs followed.
   */
  lemma StampsFirstLosesEdits(d: Durable, rs: Reviews, cuts: seq<Cut>, i: int)
    requires Valid(d.catalogue)
    requires Run(d.catalogue, rs, Pending(d.catalogue, rs, d.stamped)).Done?
    requires i in Run(d.catalogue, rs, Pending(d.catalogue, rs, d.stamped)).stamps
    ensures i in d.catalogue.passages
    ensures var stamps := Run(d.catalogue, rs, Pending(d.catalogue, rs, d.stamped)).stamps;
      var stampedOnly := Durable(d.catalogue, d.stamped + stamps);
      Exec(stampedOnly, rs, cuts).catalogue.passages.Keys == d.catalogue.passages.Keys
      && Exec(stampedOnly, rs, cuts).catalogue.passages[i] == d.catalogue.passages[i]
  {
    var o := Run(d.catalogue, rs, Pending(d.catalogue, rs, d.stamped));
    RunEdits(d.catalogue, rs, Pending(d.catalogue, rs, d.stamped));
    StampedHaveLanded(Durable(d.catalogue, d.stamped + o.stamps), rs, cuts);
  }

  // ------------------------------------------------------------------ the program

  datatype Report = Report(pending: nat, applied: nat, skipped: seq<int>, failed: bool)

  /** What the pending loop of a commit has done by its n-th review. */
  ghost predicate Worked(c: Catalogue, rs: Reviews, ids: seq<int>, n: nat, work: Catalogue, toStamp: seq<int>,
                         skipped: seq<int>, applied: nat)
    requires Valid(c) && Runnable(c, rs, ids) && n <= |ids|
  {
    && applied + |skipped| == n && Run(c, rs, ids[..n]) == Done(work, Elements(toStamp))
    && Elements(ids[..n]) - Elements(skipped) == Elements(toStamp) && Elements(skipped) <= Elements(ids[..n])
  }

  lemma WorkStarts(c: Catalogue, rs: Reviews, ids: seq<int>)
    requires Valid(c) && Runnable(c, rs, ids)
    ensures Worked(c, rs, ids, 0, c, [], [], 0)
  {
    assert ids[..0] == [];
  }

  lemma WorkedRow(c: Catalogue, rs: Reviews, ids: seq<int>, n: nat, work: Catalogue, toStamp: seq<int>,
                  skipped: seq<int>, applied: nat)
    requires Valid(c) && Runnable(c, rs, ids) && Distinct(ids) && n < |ids|
    requires Worked(c, rs, ids, n, work, toStamp, skipped, applied)
    ensures ids[n] in ids && ids[n] !in ids[..n] && ids[n] in rs && ids[n] in work.passages
    ensures work.passages[ids[n]].file in work.files
    ensures Run(c, rs, ids[..n + 1]) == Step(work, Elements(toStamp), ids[n], rs[ids[n]])
  {
    assert ids[..n + 1] == ids[..n] + [ids[n]];
    RunLonger(c, rs, ids[..n], ids[n]);
  }

  lemma WorkedSkip(c: Catalogue, rs: Reviews, ids: seq<int>, n: nat, work: Catalogue, toStamp: seq<int>,
                   skipped: seq<int>, applied: nat)
    requires Valid(c) && Runnable(c, rs, ids) && Distinct(ids) && n < |ids|
    requires Worked(c, rs, ids, n, work, toStamp, skipped, applied) && ids[n] in work.passages && ids[n] in rs
    requires Refused(work, ids[n], rs[ids[n]])
    ensures Worked(c, rs, ids, n + 1, work, toStamp, skipped + [ids[n]], applied)
  {
    hide Refused;
    hide Run;
    WorkedRow(c, rs, ids, n, work, toStamp, skipped, applied);
    assert ids[..n + 1] == ids[..n] + [ids[n]];
    ElementsLonger(ids[..n], ids[n]);
    ElementsLonger(skipped, ids[n]);
  }

  lemma WorkedLanding(c: Catalogue, rs: Reviews, ids: seq<int>, n: nat, work: Catalogue, toStamp: seq<int>,
                      skipped: seq<int>, applied: nat)
    requires Valid(c) && Runnable(c, rs, ids) && Distinct(ids) && n < |ids|
    requires Worked(c, rs, ids, n, work, toStamp, skipped, applied) && ids[n] in work.passages && ids[n] in rs
    requires work.passages[ids[n]].file in work.files
    requires !Refused(work, ids[n], rs[ids[n]]) && Proper(rs[ids[n]].span)
    ensures Worked(c, rs, ids, n + 1, Landed(work, ids[n], rs[ids[n]]), toStamp + [ids[n]], skipped, applied + 1)
  {
    hide Refused;
    hide Landed;
    hide Run;
    WorkedRow(c, rs, ids, n, work, toStamp, skipped, applied);
    assert ids[..n + 1] == ids[..n] + [ids[n]];
    ElementsLonger(ids[..n], ids[n]);
    ElementsLonger(toStamp, ids[n]);
  }

  class Installation {
    var catalogue: Catalogue
    var stamped: set<int>
    const reviews: Reviews

    constructor (c: Catalogue, rs: Reviews, s: set<int>)
      ensures catalogue == c && reviews == rs && stamped == s
    {
      catalogue, reviews, stamped := c, rs, s;
    }

    ghost function State(): Durable
      reads this
    {
      Durable(catalogue, stamped)
    }

    /** The pending query, in order of passage. */
    method SelectPending() returns (ids: seq<int>)
      ensures ids == Pending(catalogue, reviews, stamped)
    {
      ids := Ascending(set i | i in reviews && i in catalogue.passages && i !in stamped);
    }

    /** A rehearsal: every edit is judged against the rows as they are, and nothing is written. */
    method Rehearse() returns (report: Report)
      requires Valid(catalogue)
      ensures report.pending == |Pending(catalogue, reviews, stamped)| == report.applied + |report.skipped|
      ensures !report.failed
      ensures Elements(Pending(catalogue, reviews, stamped)) - Elements(report.skipped)
           == Rehearsed(catalogue, reviews, Pending(catalogue, reviews, stamped))
    {
      var ids := SelectPending();
      var skipped: seq<int>, applied := [], 0;
      for n := 0 to |ids|
        invariant applied + |skipped| == n
        invariant forall i :: i in skipped <==> i in ids[..n] && Refused(catalogue, i, reviews[i])
      {
        var i := ids[n];
        assert ids[..n + 1] == ids[..n] + [i] && i in ids;
        if Moved(catalogue, i, reviews[i]) && Collides(catalogue, i, reviews[i]) {
          skipped := skipped + [i];
        } else {
          applied := applied + 1;
        }
      }
      assert ids[..|ids|] == ids;
      report := Report(|ids|, applied, skipped, false);
    }

    /** The pending loop of a commit, on the rows as the edits change them. */
    method Work(ids: seq<int>) returns (report: Report, work: Catalogue, toStamp: seq<int>)
      requires Valid(catalogue) && Runnable(catalogue, reviews, ids) && Distinct(ids)
      ensures report.failed <==> Run(catalogue, reviews, ids).Aborted?
      ensures !report.failed ==> Run(catalogue, reviews, ids) == Done(work, Elements(toStamp))
      ensures !report.failed ==>
        report.applied + |report.skipped| == |ids| && Elements(ids) - Elements(report.skipped) == Elements(toStamp)
    {
      hide Run;
      hide Landed;
      hide Valid;
      work, toStamp := catalogue, [];
      var skipped: seq<int>, applied := [], 0;
      WorkStarts(catalogue, reviews, ids);
      for n := 0 to |ids|
        invariant Worked(catalogue, reviews, ids, n, work, toStamp, skipped, applied)
      {
        var i := ids[n];
        WorkedRow(catalogue, reviews, ids, n, work, toStamp, skipped, applied);
        if Moved(work, i, reviews[i]) && Collides(work, i, reviews[i]) {
          WorkedSkip(catalogue, reviews, ids, n, work, toStamp, skipped, applied);
          skipped := skipped + [i];
        } else if !Proper(reviews[i].span) {
          AbortsIff(catalogue, reviews, ids);
          return Report(|ids|, 0, [], true), work, toStamp;
        } else {
          WorkedLanding(catalogue, reviews, ids, n, work, toStamp, skipped, applied);
          work := Landed(work, i, reviews[i]);
          toStamp := toStamp + [i];
          applied := applied + 1;
        }
      }
      assert ids[..|ids|] == ids;
      report := Report(|ids|, applied, skipped, false);
    }

    /** The second commit: every edit of the first, stamped. */
    method Stamp(toStamp: seq<int>)
      modifies this
      ensures stamped == old(stamped) + Elements(toStamp) && catalogue == old(catalogue)
    {
      var marks := stamped;
      for n := 0 to |toStamp|
        invariant marks == old(stamped) + Elements(toStamp[..n])
        invariant catalogue == old(catalogue) && stamped == old(stamped)
      {
        assert toStamp[..n + 1] == toStamp[..n] + [toStamp[n]];
        ElementsLonger(toStamp[..n], toStamp[n]);
        marks := marks + {toStamp[n]};
      }
      assert toStamp[..|toStamp|] == toStamp;
      stamped := marks;
    }

    /** A committing run: the catalogue is committed, and then the stamps, unless it is cut short. */
    method Commit(cut: Cut) returns (report: Report)
      requires Valid(catalogue)
      modifies this
      ensures State() == After(old(State()), reviews, cut)
      ensures report.failed <==> old(Run(catalogue, reviews, Pending(catalogue, reviews, stamped))).Aborted?
      ensures !report.failed ==>
        Elements(old(Pending(catalogue, reviews, stamped))) - Elements(report.skipped)
        == old(Run(catalogue, reviews, Pending(catalogue, reviews, stamped))).stamps
    {
      var ids := SelectPending();
      var work, toStamp;
      report, work, toStamp := Work(ids);
      if !report.failed && cut != BeforeCatalogue {
        catalogue := work;
        if cut != BetweenCommits {
          Stamp(toStamp);
        }
      }
    }
  }
}
