/**
 What becomes of another machine's change, said of the library's own rows, after tools/apply_changes.py: when it
 is left alone, when it is written, what it leaves, and that a value which differs from what the change was made
 over is kept.
 */
module MergeOutcomes {
  import opened Optional
  import opened BoundaryReviews
  import opened ThreeWayMerge

  // -------------------------------------------------------------- what is held

  /** Passage i is of the anchor's audio and kind, and has this span. */
  ghost predicate LiesAt(c: Catalogue, i: int, a: Anchor, span: Span)
  {
    && i in c.passages && c.passages[i].file in c.files && c.files[c.passages[i].file] == a.audio
    && c.passages[i].kind == a.kind && c.passages[i].span.start == span.start && c.passages[i].span.end == span.end
  }

  /**
   The change applies to passage i, or to its recording (and then i is 0). A boundary change applies at its
   target only where no passage is at its anchor. A passage numbered 0 is passed over.
   */
  ghost predicate AppliesTo(lib: Library, ch: Change, i: int)
  {
    match ch
    case IdReview(a, _, _, _, _, _) => i != 0 && LiesAt(lib.catalogue, i, a, a.span)
    case BoundaryReview(a, _, t, _) =>
      i != 0 && (LiesAt(lib.catalogue, i, a, a.span)
                 || ((forall j :: !LiesAt(lib.catalogue, j, a, a.span)) && LiesAt(lib.catalogue, i, a, t.span)))
    case ArtistReview(r, _, _, _, _) => i == 0 && r in lib.recordings
    case Unknown => false
  }

  /** The heaviest of some weighted rows is this one; None stands for no row. */
  ghost predicate Heads(q: Queries, m: Weights, o: Option<string>)
  {
    if m == map[] then o.None? else o.Some? && o.value == q.heaviest(m)
  }

  /** The passage has these values, gains within a ten-thousandth, and fades where they count. */
  ghost predicate Like(p: Passage, v: Values, fades: bool)
  {
    && p.span.start == v.span.start && p.span.end == v.span.end
    && p.levels.leadIn == v.levels.leadIn && p.levels.leadOut == v.levels.leadOut
    && (p.levels.gain.Some? <==> v.levels.gain.Some?)
    && (p.levels.gain.Some? ==> -0.0001 < p.levels.gain.value - v.levels.gain.value < 0.0001)
    && (fades ==>
          && v.fade.Some? && p.fadeIn == v.fade.value.inMs && p.fadeOut == v.fade.value.outMs
          && p.fadeInCurve == v.fade.value.inCurve && p.fadeOutCurve == v.fade.value.outCurve)
  }

  /** What the library holds is already what the change sets. */
  ghost predicate HoldsTarget(q: Queries, lib: Library, ch: Change, i: int)
    requires AppliesTo(lib, ch, i)
  {
    match ch
    case IdReview(_, _, mbid, _, _, _) => Heads(q, Entries(lib.credits, i), Some(mbid))
    case BoundaryReview(_, _, t, _) => Like(lib.catalogue.passages[i], t, t.fade.Some?)
    case ArtistReview(r, _, artist, _, _) => Heads(q, Entries(lib.artistsOf, r), artist)
  }

  /** What the library holds is what the change was made over. */
  ghost predicate HoldsBaseline(q: Queries, lib: Library, ch: Change, i: int)
    requires AppliesTo(lib, ch, i)
  {
    match ch
    case IdReview(_, was, _, _, _, _) => Heads(q, Entries(lib.credits, i), was)
    case BoundaryReview(_, before, t, _) => Like(lib.catalogue.passages[i], before, t.fade.Some?)
    case ArtistReview(r, previous, _, _, _) => Heads(q, Entries(lib.artistsOf, r), previous)
  }

  ghost predicate Overruled(n: int, cfg: Config)
  {
    n in cfg.resolutions && cfg.resolutions[n] == Theirs
  }

  // ------------------------------------------------------------- when it is written

  lemma LiesAtIsThere(c: Catalogue, a: Anchor, span: Span)
    ensures forall i :: LiesAt(c, i, a, span) <==> i in PassagesAt(c, a.audio, a.kind, span)
  {
  }

  lemma NonePresent(c: Catalogue, a: Anchor, span: Span)
    ensures (forall j :: !LiesAt(c, j, a, span)) <==> PassagesAt(c, a.audio, a.kind, span) == {}
  {
    LiesAtIsThere(c, a, span);
    var found := PassagesAt(c, a.audio, a.kind, span);
    hide PassagesAt;
    hide LiesAt;
    if forall j :: j !in found {
      assert found == {};
    }
  }

  /** A change reads the one passage, or the recording, it applies to. */
  lemma ReadsWhereItApplies(q: Queries, lib: Library, ch: Change, i: int)
    requires Fair(q) && Sound(lib) && AppliesTo(lib, ch, i)
    ensures var r := Read(q, lib, ch);
      match ch
      case IdReview(_, _, _, _, _, _) => r == PassageRecording(i, Heaviest(q, Entries(lib.credits, i)))
      case BoundaryReview(_, _, _, _) => r == PassageRow(i, lib.catalogue.passages[i])
      case ArtistReview(m, _, _, _, _) => r == RecordingArtist(Heaviest(q, Entries(lib.artistsOf, m)))
  {
    hide Heaviest;
    hide Entries;
    var c := lib.catalogue;
    match ch
    case IdReview(a, _, _, _, _, _) =>
      LiesAtIsThere(c, a, a.span);
      AtMostOne(c, a.audio, a.kind, a.span);
    case BoundaryReview(a, _, t, _) =>
      LiesAtIsThere(c, a, a.span);
      LiesAtIsThere(c, a, t.span);
      AtMostOne(c, a.audio, a.kind, a.span);
      AtMostOne(c, a.audio, a.kind, t.span);
      NonePresent(c, a, a.span);
      hide PassagesAt;
    case ArtistReview(_, _, _, _, _) =>
  }

  lemma ReadsNothing(q: Queries, lib: Library, ch: Change)
    requires Fair(q) && Sound(lib) && forall i :: !AppliesTo(lib, ch, i)
    ensures Read(q, lib, ch).Absent?
  {
    var r, c := Read(q, lib, ch), lib.catalogue;
    if r.PassageRecording? {
      LiesAtIsThere(c, ch.anchor, ch.anchor.span);
      assert !AppliesTo(lib, ch, r.passage);
    } else if r.PassageRow? {
      LiesAtIsThere(c, ch.anchor, ch.anchor.span);
      LiesAtIsThere(c, ch.anchor, ch.target.span);
      NonePresent(c, ch.anchor, ch.anchor.span);
      assert !AppliesTo(lib, ch, r.passage);
    } else {
      assert !AppliesTo(lib, ch, 0);
    }
  }

  lemma HeadsIsHeaviest(q: Queries, m: Weights, o: Option<string>)
    ensures Heads(q, m, o) <==> Heaviest(q, m) == o
  {
  }

  lemma LikeIsSame(p: Passage, v: Values, fades: bool)
    ensures Like(p, v, fades) <==> SameValues(p, v, fades)
  {
  }

  lemma VerdictIs(q: Queries, lib: Library, ch: Change, i: int)
    requires Fair(q) && Sound(lib) && AppliesTo(lib, ch, i)
    ensures Classify(Read(q, lib, ch), ch)
         == if HoldsTarget(q, lib, ch, i) then Noop else if HoldsBaseline(q, lib, ch, i) then FastForward else Conflict
  {
    hide Heaviest;
    hide Heads;
    hide Like;
    hide SameValues;
    ReadsWhereItApplies(q, lib, ch, i);
    hide Read;
    match ch
    case IdReview(_, was, mbid, _, _, _) =>
      HeadsIsHeaviest(q, Entries(lib.credits, i), was);
      HeadsIsHeaviest(q, Entries(lib.credits, i), Some(mbid));
    case BoundaryReview(_, before, t, _) =>
      LikeIsSame(lib.catalogue.passages[i], before, t.fade.Some?);
      LikeIsSame(lib.catalogue.passages[i], t, t.fade.Some?);
    case ArtistReview(r, previous, artist, _, _) =>
      HeadsIsHeaviest(q, Entries(lib.artistsOf, r), previous);
      HeadsIsHeaviest(q, Entries(lib.artistsOf, r), artist);
  }

  /**
   The three-way merge of one change. Where it applies to nothing it is missing; where the library already has
   its value it is in sync; otherwise it goes ahead exactly when the library has the value it was made over, or
   it has been ruled theirs, and is left as a conflict with nothing touched when neither is so.
   */
  lemma WhatBecomes(q: Queries, lib: Library, n: int, ch: Change, cfg: Config)
    requires Fair(q) && Sound(lib)
    ensures var (l, o) := Consider(q, lib, n, ch, cfg);
      && ((forall i :: !AppliesTo(lib, ch, i)) ==> l == lib && o == Left(Missing))
      && forall i :: AppliesTo(lib, ch, i) ==>
           if HoldsTarget(q, lib, ch, i) then l == lib && o == Left(Noop)
           else if !HoldsBaseline(q, lib, ch, i) && !Overruled(n, cfg) then l == lib && o == Left(Conflict)
           else if !cfg.writing then l == lib && o == Rehearsed
           else o == Wrote || o == Failed
  {
    hide Read;
    hide Classify;
    hide Apply;
    hide Sound;
    hide AppliesTo;
    hide HoldsTarget;
    hide HoldsBaseline;
    ReadFinds(q, lib, ch);
    if forall i :: !AppliesTo(lib, ch, i) {
      ReadsNothing(q, lib, ch);
      AbsentIsMissing(q, lib, ch);
    }
    forall i | AppliesTo(lib, ch, i)
      ensures Classify(Read(q, lib, ch), ch)
           == if HoldsTarget(q, lib, ch, i) then Noop
              else if HoldsBaseline(q, lib, ch, i) then FastForward else Conflict
    {
      VerdictIs(q, lib, ch, i);
    }
  }

  lemma AbsentIsMissing(q: Queries, lib: Library, ch: Change)
    requires Fair(q) && Read(q, lib, ch).Absent?
    ensures Classify(Read(q, lib, ch), ch) == Missing
  {
  }

  /**
   Where nobody has ruled otherwise, a change is written, refused or rehearsed only over the value it was made
   over; a library that holds another value, and not the change's own, keeps it and reports a conflict.
   */
  lemma DivergedIsKept(q: Queries, lib: Library, n: int, ch: Change, cfg: Config)
    requires Fair(q) && Sound(lib) && !Overruled(n, cfg)
    ensures var (l, o) := Consider(q, lib, n, ch, cfg);
      && (!o.Left? ==> exists i :: AppliesTo(lib, ch, i) && HoldsBaseline(q, lib, ch, i) && !HoldsTarget(q, lib, ch, i))
      && forall i :: AppliesTo(lib, ch, i) && !HoldsBaseline(q, lib, ch, i) && !HoldsTarget(q, lib, ch, i) ==>
           l == lib && o == Left(Conflict)
  {
    hide Consider;
    hide AppliesTo;
    hide HoldsTarget;
    hide HoldsBaseline;
    hide Sound;
    WhatBecomes(q, lib, n, ch, cfg);
  }

  // ------------------------------------------------------------------ what it leaves

  /** The flags of a change's subjects go, where that is asked for, and no others. */
  ghost predicate FlagsCleared(lib: Library, l: Library, ch: Change, i: int, cfg: Config)
  {
    forall f :: f in l.flags <==> f in lib.flags && !(cfg.clearFlags && Concerns(f, ch, i))
  }

  ghost predicate Concerns(f: Flag, ch: Change, i: int)
  {
    match ch
    case IdReview(_, was, mbid, _, _, _) =>
      f == OnPassage(i) || f == OnRecording(mbid) || (was.Some? && was.value != "" && f == OnRecording(was.value))
    case BoundaryReview(_, _, _, _) => f == OnPassage(i)
    case ArtistReview(r, _, _, _, _) => f == OnRecording(r)
    case Unknown => false
  }

  /** Some of the credits give this artist with a name. */
  ghost predicate NamedIn(credited: seq<Credit>, artist: string)
  {
    exists c :: c in credited && c.mbid == artist && c.name.Some? && c.name.value != ""
  }

  /** A recording that was not known is made known with the credits that have names; a known one is left alone. */
  ghost predicate MadeKnown(lib: Library, l: Library, ch: Change)
    requires ch.IdReview?
  {
    && l.recordings == lib.recordings + {ch.mbid}
    && (forall r :: r != ch.mbid ==> Entries(l.artistsOf, r) == Entries(lib.artistsOf, r))
    && if ch.mbid in lib.recordings then l.artists == lib.artists && l.artistsOf == lib.artistsOf
       else
         && (forall a :: a in l.artists <==> a in lib.artists || NamedIn(ch.credited, a))
         && (forall a :: a in Entries(l.artistsOf, ch.mbid) <==> NamedIn(ch.credited, a))
         && (forall a :: a in Entries(l.artistsOf, ch.mbid) ==> Entries(l.artistsOf, ch.mbid)[a] == 1.0)
  }

  /** An id change as it lands: the passage has its recording and no other, and only the tables it names changed. */
  ghost predicate IdLands(lib: Library, l: Library, ch: Change, i: int)
    requires ch.IdReview?
  {
    && MadeKnown(lib, l, ch)
    && l.catalogue == lib.catalogue && Entries(l.credits, i) == map[ch.mbid := 1.0]
    && (forall j :: j != i ==> Entries(l.credits, j) == Entries(lib.credits, j))
    && l.idStamps == lib.idStamps + {i} && l.boundaryStamps == lib.boundaryStamps && l.artistStamps == lib.artistStamps
  }

  /** The passage has the change's values, and its own fades where the change has no opinion on them. */
  ghost predicate Takes(p1: Passage, p0: Passage, t: Values)
  {
    && p1.file == p0.file && p1.kind == p0.kind && p1.source == "manual"
    && p1.span.start == t.span.start && p1.span.end == t.span.end
    && p1.levels.leadIn == t.levels.leadIn && p1.levels.leadOut == t.levels.leadOut && p1.levels.gain == t.levels.gain
    && if t.fade.Some? then
         && p1.fadeIn == t.fade.value.inMs && p1.fadeOut == t.fade.value.outMs
         && p1.fadeInCurve == t.fade.value.inCurve && p1.fadeOutCurve == t.fade.value.outCurve
       else
         && p1.fadeIn == p0.fadeIn && p1.fadeOut == p0.fadeOut
         && p1.fadeInCurve == p0.fadeInCurve && p1.fadeOutCurve == p0.fadeOutCurve
  }

  /** A boundary change as it lands: its passage moved, and the cached features of a span nobody is on any more gone. */
  ghost predicate BoundaryLands(lib: Library, l: Library, ch: Change, i: int)
    requires ch.BoundaryReview? && i in lib.catalogue.passages
  {
    var c, c' := lib.catalogue, l.catalogue;
    && c'.files == c.files && c'.passages.Keys == c.passages.Keys && Valid(c')
    && Takes(c'.passages[i], c.passages[i], ch.target)
    && (forall j :: j in c.passages && j != i ==> c'.passages[j] == c.passages[j])
    && (forall e :: e in c'.cache <==> e in c.cache && Occupied(c', e))
    && l.boundaryStamps == lib.boundaryStamps + {i}
    && l.idStamps == lib.idStamps && l.artistStamps == lib.artistStamps && l.recordings == lib.recordings
    && l.artists == lib.artists && l.credits == lib.credits && l.artistsOf == lib.artistsOf
  }

  /** An artist change as it lands: the recording has the one artist, who is known. */
  ghost predicate ArtistLands(lib: Library, l: Library, ch: Change)
    requires ch.ArtistReview?
  {
    && ch.artist.Some? && l.artists == lib.artists + {ch.artist.value}
    && Entries(l.artistsOf, ch.recording) == map[ch.artist.value := 1.0]
    && (forall r :: r != ch.recording ==> Entries(l.artistsOf, r) == Entries(lib.artistsOf, r))
    && l.artistStamps == lib.artistStamps + {ch.recording}
    && l.idStamps == lib.idStamps && l.boundaryStamps == lib.boundaryStamps && l.catalogue == lib.catalogue
    && l.recordings == lib.recordings && l.credits == lib.credits
  }

  /** A change that goes ahead can be written whole. */
  ghost predicate Writable(lib: Library, ch: Change, i: int)
    requires AppliesTo(lib, ch, i)
  {
    match ch
    case IdReview(_, _, mbid, title, _, dated) =>
      dated && (mbid in lib.recordings || (title.Some? && title.value != ""))
    case BoundaryReview(_, _, t, dated) =>
      dated && t.span.start < t.span.end && Free(lib.catalogue, i, t.span)
    case ArtistReview(_, _, artist, name, dated) => dated && artist.Some? && name.Some?
  }

  /** No other passage of its file and kind has this span. */
  ghost predicate Free(c: Catalogue, i: int, span: Span)
    requires i in c.passages
  {
    forall j :: j in c.passages && j != i ==>
      !(c.passages[j].file == c.passages[i].file && c.passages[j].kind == c.passages[i].kind
        && c.passages[j].span == span)
  }

  lemma {:induction false} CreditsMade(lib: Library, mbid: string, credited: seq<Credit>)
    requires mbid !in lib.artistsOf
    ensures var l := WithCredits(lib, mbid, credited);
      && (forall a :: a in l.artists <==> a in lib.artists || NamedIn(credited, a))
      && (forall a :: a in Entries(l.artistsOf, mbid) <==> NamedIn(credited, a))
      && (forall a :: a in Entries(l.artistsOf, mbid) ==> Entries(l.artistsOf, mbid)[a] == 1.0)
  {
    hide NamedIn;
    if credited != [] {
      var init, c := credited[..|credited| - 1], credited[|credited| - 1];
      assert credited == init + [c];
      CreditsMade(lib, mbid, init);
      NamedLonger(init, c);
    } else {
      NoneNamed();
    }
  }

  lemma NoneNamed()
    ensures forall a :: !NamedIn([], a)
  {
  }

  lemma NamedLonger(init: seq<Credit>, c: Credit)
    ensures forall a ::
      NamedIn(init + [c], a) <==> NamedIn(init, a) || (a == c.mbid && c.name.Some? && c.name.value != "")
  {
    forall a ensures NamedIn(init + [c], a) <==> NamedIn(init, a) || (a == c.mbid && c.name.Some? && c.name.value != "")
    {
      assert forall d :: d in init + [c] <==> d in init || d == c;
    }
  }

  lemma IdLanding(lib: Library, i: int, ch: Change)
    requires Linked(lib) && ch.IdReview?
    ensures ApplyId(lib, i, ch).Landed? <==>
      ch.dated && (ch.mbid in lib.recordings || (ch.title.Some? && ch.title.value != ""))
    ensures ApplyId(lib, i, ch).Landed? ==>
      IdLands(lib, ApplyId(lib, i, ch).lib, ch, i) && ApplyId(lib, i, ch).lib.flags == lib.flags
  {
    if ch.mbid !in lib.recordings {
      var known := lib.(recordings := lib.recordings + {ch.mbid});
      assert ch.mbid !in lib.artistsOf;
      CreditsMade(known, ch.mbid, ch.credited);
      CreditsKeepCatalogue(known, ch.mbid, ch.credited);
    }
    hide WithCredits;
    hide NamedIn;
  }

  lemma BreaksUnlessFree(c: Catalogue, i: int, t: Values)
    requires i in c.passages
    ensures Breaks(c, i, t) <==> !(t.span.start < t.span.end && Free(c, i, t.span))
  {
    forall j | j in c.passages && j != i
      ensures SamePlace(c.passages[j], WithValues(c.passages[i], t))
         <==> (c.passages[j].file == c.passages[i].file && c.passages[j].kind == c.passages[i].kind
               && c.passages[j].span == t.span)
    {
    }
  }

  lemma BoundaryLanding(q: Queries, lib: Library, i: int, ch: Change)
    requires Fair(q) && Sound(lib) && ch.BoundaryReview? && AppliesTo(lib, ch, i)
    ensures ApplyBoundary(lib, i, ch).Landed? <==> Writable(lib, ch, i)
    ensures ApplyBoundary(lib, i, ch).Landed? ==>
      BoundaryLands(lib, ApplyBoundary(lib, i, ch).lib, ch, i) && ApplyBoundary(lib, i, ch).lib.flags == lib.flags
  {
    var c := lib.catalogue;
    BreaksUnlessFree(c, i, ch.target);
    hide Free;
    hide Breaks;
    if ApplyBoundary(lib, i, ch).Landed? {
      MovedIsThere(lib, i, ch);
      MovedCovered(c, i, ch);
      CacheOnlyShrinks(c, i, ch);
      hide MovedCatalogue;
    }
  }

  lemma CacheOnlyShrinks(c: Catalogue, i: int, ch: Change)
    requires ch.BoundaryReview? && i in c.passages
    ensures MovedCatalogue(c, i, ch).cache <= c.cache
  {
  }

  lemma ArtistLanding(lib: Library, ch: Change)
    requires ch.ArtistReview?
    ensures ApplyArtist(lib, ch).Landed? <==> ch.dated && ch.artist.Some? && ch.name.Some?
    ensures ApplyArtist(lib, ch).Landed? ==>
      ArtistLands(lib, ApplyArtist(lib, ch).lib, ch) && ApplyArtist(lib, ch).lib.flags == lib.flags
  {
  }

  lemma ClearedIs(lib: Library, l: Library, r: Reading, ch: Change, i: int, cfg: Config)
    requires l.flags == lib.flags && !ch.Unknown?
    requires ch.ArtistReview? ==> r.RecordingArtist?
    requires !ch.ArtistReview? ==> (r.PassageRecording? || r.PassageRow?) && r.passage == i
    ensures FlagsCleared(lib, Cleared(l, r, ch, cfg), ch, i, cfg)
    ensures Cleared(l, r, ch, cfg) == l.(flags := Cleared(l, r, ch, cfg).flags)
  {
    forall f ensures f in Subjects(if ch.ArtistReview? then None else Some(i), ch) <==> Concerns(f, ch, i) {
    }
    hide Concerns;
  }

  /** What a change that goes ahead leaves, by its kind. */
  ghost predicate Lands(lib: Library, l: Library, ch: Change, i: int)
    requires AppliesTo(lib, ch, i)
  {
    match ch
    case IdReview(_, _, _, _, _, _) => IdLands(lib, l, ch, i)
    case BoundaryReview(_, _, _, _) => BoundaryLands(lib, l, ch, i)
    case ArtistReview(_, _, _, _, _) => ArtistLands(lib, l, ch)
  }

  lemma AppliedLands(q: Queries, lib: Library, ch: Change, i: int)
    requires Fair(q) && Sound(lib) && AppliesTo(lib, ch, i)
    ensures !ch.Unknown?
    ensures ch.IdReview? ==> Read(q, lib, ch).PassageRecording?
    ensures ch.BoundaryReview? ==> Read(q, lib, ch).PassageRow? && Read(q, lib, ch).passage in lib.catalogue.passages
    ensures ch.ArtistReview? ==> Read(q, lib, ch).RecordingArtist?
    ensures !ch.ArtistReview? ==> Read(q, lib, ch).passage == i
    ensures var a := Apply(lib, Read(q, lib, ch), ch);
      (a.Landed? <==> Writable(lib, ch, i)) && (a.Landed? ==> Lands(lib, a.lib, ch, i) && a.lib.flags == lib.flags)
  {
    ReadsWhereItApplies(q, lib, ch, i);
    hide Read;
    hide ApplyId;
    hide ApplyBoundary;
    hide ApplyArtist;
    hide IdLands;
    hide BoundaryLands;
    hide ArtistLands;
    match ch
    case IdReview(_, _, _, _, _, _) => IdLanding(lib, i, ch);
    case BoundaryReview(_, _, _, _) => BoundaryLanding(q, lib, i, ch);
    case ArtistReview(_, _, _, _, _) => ArtistLanding(lib, ch);
  }

  /**
   A change that goes ahead is written exactly when it can be written whole; and then the library differs from
   what it was by the change's own values, its stamp and, where that is asked for, its subjects' flags alone.
   */
  lemma WrittenIff(q: Queries, lib: Library, n: int, ch: Change, cfg: Config, i: int)
    requires Fair(q) && Sound(lib) && AppliesTo(lib, ch, i)
    requires Consider(q, lib, n, ch, cfg).1 == Wrote || Consider(q, lib, n, ch, cfg).1 == Failed
    ensures Consider(q, lib, n, ch, cfg).1 == Wrote <==> Writable(lib, ch, i)
    ensures Consider(q, lib, n, ch, cfg).1 == Wrote ==>
      Lands(lib, Consider(q, lib, n, ch, cfg).0, ch, i)
      && FlagsCleared(lib, Consider(q, lib, n, ch, cfg).0, ch, i, cfg)
  {
    AppliedLands(q, lib, ch, i);
    hide Read;
    hide Classify;
    hide Apply;
    hide Sound;
    hide AppliesTo;
    hide Writable;
    hide FlagsCleared;
    hide Cleared;
    var r := Read(q, lib, ch);
    var a := Apply(lib, r, ch);
    if a.Landed? {
      ClearedIs(lib, a.lib, r, ch, i, cfg);
      FlagsAside(lib, a.lib, Cleared(a.lib, r, ch, cfg), ch, i);
    }
  }

  lemma FlagsAside(lib: Library, l: Library, l': Library, ch: Change, i: int)
    requires AppliesTo(lib, ch, i) && Lands(lib, l, ch, i) && l' == l.(flags := l'.flags)
    ensures Lands(lib, l', ch, i)
  {
  }
}
