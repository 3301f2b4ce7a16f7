/**
 What a second run of the same change list does, after tools/apply_changes.py.

 A change is quiet where it has nothing to write. Its own turn leaves it quiet; what may wake it is a later
 change of the list. `Wakes` says, from the two changes alone, when some library lets it, and a list none of
 whose changes wakes an earlier one is idle when it is sent again.
 */
module MergeTwice {
  import opened Optional
  import opened BoundaryReviews
  import opened ThreeWayMerge

  // ------------------------------------------------------------ what wakes a change

  /** Where a passage can be. */
  predicate Possible(a: Anchor)
  {
    Proper(a.span) && KnownKind(a.kind)
  }

  predicate SameLevels(a: Levels, b: Levels)
  {
    a.leadIn == b.leadIn && a.leadOut == b.leadOut && SameGain(a.gain, b.gain)
  }

  /** The artists a recording has when a change makes it. */
  function Credited(credited: seq<Credit>): Weights
  {
    if credited == [] then map[]
    else
      var m, a := Credited(credited[..|credited| - 1]), credited[|credited| - 1];
      if a.name.None? || a.name.value == "" || a.mbid in m then m else m[a.mbid := 1.0]
  }

  /** Some values are the baseline's, as far as they are compared, and not the target's. */
  predicate Told(before: Values, t: Values)
  {
    && (t.fade.Some? ==> before.fade.Some?)
    && (before.levels != t.levels || (t.fade.Some? && before.fade != t.fade))
  }

  /** A passage put, with u's values, where the change would have put it is not as the change would have it. */
  predicate Overwrites(anchor: Span, before: Values, t: Values, from: Span, u: Values)
  {
    || !SameLevels(u.levels, t.levels)
    || (t.fade.Some? && u.fade.Some? && u.fade != t.fade)
    || (t.fade.Some? && u.fade.None?
        && ((Proper(from) && from != anchor && from != t.span)
            || (before.span == t.span && before.fade.Some? && before.fade != t.fade
                && SameLevels(u.levels, before.levels))))
  }

  /** A passage is brought to the anchor, or given the baseline's values there. */
  predicate Restores(anchor: Span, before: Values, t: Values, from: Span, u: Values)
  {
    || (Proper(from) && from != anchor)
    || (before.span == anchor && SameLevels(u.levels, before.levels)
        && (t.fade.None? || (before.fade.Some? && (u.fade.None? || u.fade == before.fade))))
  }

  /** The passage at the anchor is taken away, and behind it another one comes to be read. */
  predicate Uncovers(anchor: Span, before: Values, t: Values, from: Span)
  {
    && from == anchor && anchor != t.span && Proper(anchor) && Proper(t.span)
    && before.span == t.span && Told(before, t)
  }

  /** A boundary change made over `before`, and a later one that takes a passage from `from` to u. */
  predicate MovesUnder(anchor: Span, before: Values, t: Values, from: Span, u: Values)
  {
    if u.span == t.span then Overwrites(anchor, before, t, from, u)
    else if u.span == anchor then Restores(anchor, before, t, from, u)
    else Uncovers(anchor, before, t, from)
  }

  /** In some library the later change d gives ch something to write again. */
  predicate Wakes(q: Queries, d: Change, ch: Change)
  {
    match (ch, d)
    case (IdReview(a, _, mbid, _, _, _), IdReview(b, _, mbid', _, _, dated)) =>
      dated && a == b && Possible(a) && mbid != mbid'
    case (IdReview(a, _, _, _, _, _), BoundaryReview(b, _, u, dated)) =>
      dated && a == b.(span := u.span) && Possible(a) && Possible(b) && b.span != u.span
    case (BoundaryReview(a, before, t, _), BoundaryReview(b, _, u, dated)) =>
      && dated && a.audio == b.audio && a.kind == b.kind && KnownKind(a.kind) && Proper(u.span)
      && MovesUnder(a.span, before, t, b.span, u)
    case (ArtistReview(r, _, artist, _, _), IdReview(b, _, mbid, title, credited, dated)) =>
      dated && r == mbid && Possible(b) && title.Some? && title.value != "" && Heaviest(q, Credited(credited)) != artist
    case (ArtistReview(r, _, artist, _, _), ArtistReview(r', _, artist', name, dated)) =>
      dated && r == r' && artist'.Some? && name.Some? && artist' != artist
    case _ => false
  }

  // --------------------------------------------------------------- nothing else does

  /** Whether a boundary change goes over a passage with these values. */
  ghost predicate GoesOver(p: Passage, ch: Change, n: int, cfg: Config)
    requires ch.BoundaryReview?
  {
    Goes(Classify(PassageRow(1, p), ch), n, cfg)
  }

  lemma GoesOverIff(q: Queries, lib: Library, ch: Change, n: int, cfg: Config)
    requires Fair(q) && ch.BoundaryReview? && Read(q, lib, ch).PassageRow?
    ensures GoesOver(Read(q, lib, ch).row, ch, n, cfg) <==> !Quiet(q, lib, n, ch, cfg)
  {
    hide Read;
  }

  /** Over a passage the change has read and left, or is in sync with. */
  lemma OverwrittenQuiet(p: Passage, ch: Change, from: Span, u: Values, n: int, cfg: Config)
    requires ch.BoundaryReview? && !GoesOver(p, ch, n, cfg) && u.span == ch.target.span
    requires !Overwrites(ch.anchor.span, ch.before, ch.target, from, u)
    ensures !GoesOver(WithValues(p, u), ch, n, cfg)
  {
  }

  /** A passage brought from elsewhere. */
  lemma ArrivedQuiet(p: Passage, ch: Change, from: Span, u: Values, n: int, cfg: Config)
    requires ch.BoundaryReview? && u.span == ch.target.span
    requires Proper(from) && from != ch.anchor.span && from != ch.target.span
    requires !Overwrites(ch.anchor.span, ch.before, ch.target, from, u)
    ensures !GoesOver(WithValues(p, u), ch, n, cfg)
  {
  }

  /** At the anchor, where the change has left it. */
  lemma RestoredQuiet(p: Passage, ch: Change, from: Span, u: Values, n: int, cfg: Config)
    requires ch.BoundaryReview? && !GoesOver(p, ch, n, cfg) && p.span == ch.anchor.span
    requires u.span == ch.anchor.span != ch.target.span
    requires !Restores(ch.anchor.span, ch.before, ch.target, from, u)
    ensures !GoesOver(WithValues(p, u), ch, n, cfg)
  {
  }

  /** Another passage, where the change would put its own, is not gone over unless the baseline tells it apart. */
  lemma UncoveredQuiet(p: Passage, r: Passage, ch: Change, n: int, cfg: Config)
    requires ch.BoundaryReview? && !GoesOver(p, ch, n, cfg)
    requires p.span == ch.anchor.span != ch.target.span == r.span
    requires !(ch.before.span == ch.target.span && Told(ch.before, ch.target))
    ensures !GoesOver(r, ch, n, cfg)
  {
  }

  /** Where the passages are after one of them was moved. */
  lemma PlacesAfter(lib: Library, i: int, d: Change, audio: string, kind: string, span: Span)
    requires d.BoundaryReview? && i in lib.catalogue.passages && !Breaks(lib.catalogue, i, d.target)
    requires lib.catalogue.passages[i].file in lib.catalogue.files
    ensures var p := lib.catalogue.passages[i];
      var here := lib.catalogue.files[p.file] == audio && p.kind == kind && span == d.target.span;
      PassagesAt(ApplyBoundary(lib, i, d).lib.catalogue, audio, kind, span)
      == PassagesAt(lib.catalogue, audio, kind, span) - {i} + if here then {i} else {}
  {
    hide ApplyBoundary;
    MovedIsThere(lib, i, d);
    var c, c' := lib.catalogue, ApplyBoundary(lib, i, d).lib.catalogue;
    var here := c.files[c.passages[i].file] == audio && c.passages[i].kind == kind && span == d.target.span;
    forall j
      ensures j in PassagesAt(c', audio, kind, span)
         <==> (j in PassagesAt(c, audio, kind, span) && j != i) || (j == i && here)
    {
    }
  }

  /** The passage a boundary change reads. */
  ghost predicate ReadsThere(c: Catalogue, ch: Change, j: int)
    requires ch.BoundaryReview?
  {
    var a := ch.anchor;
    || j in PassagesAt(c, a.audio, a.kind, a.span)
    || (PassagesAt(c, a.audio, a.kind, a.span) == {} && j in PassagesAt(c, a.audio, a.kind, ch.target.span))
  }

  lemma ReadIs(q: Queries, lib: Library, ch: Change, j: int)
    requires Fair(q) && Valid(lib.catalogue) && OneFileEach(lib.catalogue) && ch.BoundaryReview?
    requires ReadsThere(lib.catalogue, ch, j)
    ensures j in lib.catalogue.passages
    ensures Read(q, lib, ch) == if j == 0 then Absent else PassageRow(j, lib.catalogue.passages[j])
  {
    var a := ch.anchor;
    AtMostOne(lib.catalogue, a.audio, a.kind, a.span);
    AtMostOne(lib.catalogue, a.audio, a.kind, ch.target.span);
  }

  lemma ReadFrom(q: Queries, lib: Library, ch: Change)
    requires Fair(q) && ch.BoundaryReview? && Read(q, lib, ch).PassageRow?
    ensures var r, c := Read(q, lib, ch), lib.catalogue;
      ReadsThere(c, ch, r.passage) && r.passage != 0 && r.passage in c.passages && r.row == c.passages[r.passage]
  {
  }

  /** A boundary change after which a passage lies where d put it. */
  ghost predicate Moves(q: Queries, lib: Library, d: Change, i: int)
    requires Fair(q)
  {
    && Valid(lib.catalogue) && OneFileEach(lib.catalogue) && KindsKnown(lib.catalogue) && d.BoundaryReview? && d.dated
    && i != 0 && i in lib.catalogue.passages && ReadsThere(lib.catalogue, d, i) && !Breaks(lib.catalogue, i, d.target)
  }

  lemma NotToAnchor(anchor: Span, before: Values, t: Values, from: Span, u: Values)
    requires Proper(from) && from != anchor && (u.span == anchor || u.span == t.span)
    requires !MovesUnder(anchor, before, t, from, u)
    ensures u.span == t.span
  {
  }

  /** The passage that d moved is the one ch reads afterwards. */
  lemma MovedSeen(q: Queries, lib: Library, n: int, ch: Change, d: Change, cfg: Config, i: int)
    requires Fair(q) && Moves(q, lib, d, i) && ch.BoundaryReview? && Quiet(q, lib, n, ch, cfg) && !Wakes(q, d, ch)
    requires ReadsThere(ApplyBoundary(lib, i, d).lib.catalogue, ch, i)
    ensures !GoesOver(WithValues(lib.catalogue.passages[i], d.target), ch, n, cfg)
  {
    hide ApplyBoundary;
    hide GoesOver;
    hide Quiet;
    hide Overwrites;
    var a, c, p := ch.anchor, lib.catalogue, lib.catalogue.passages[i];
    PlacesAfter(lib, i, d, a.audio, a.kind, a.span);
    PlacesAfter(lib, i, d, a.audio, a.kind, ch.target.span);
    assert a.audio == d.anchor.audio && a.kind == d.anchor.kind && Proper(p.span) && Proper(d.target.span);
    if p.span == a.span || p.span == ch.target.span == d.target.span {
      assert ReadsThere(c, ch, i);
      ReadIs(q, lib, ch, i);
      GoesOverIff(q, lib, ch, n, cfg);
      if d.target.span == ch.target.span {
        OverwrittenQuiet(p, ch, d.anchor.span, d.target, n, cfg);
      } else {
        RestoredQuiet(p, ch, d.anchor.span, d.target, n, cfg);
      }
    } else {
      assert p.span == d.anchor.span;
      NotToAnchor(a.span, ch.before, ch.target, d.anchor.span, d.target);
      ArrivedQuiet(p, ch, d.anchor.span, d.target, n, cfg);
    }
  }

  /** Another passage is the one ch reads afterwards. */
  lemma OtherSeen(q: Queries, lib: Library, n: int, ch: Change, d: Change, cfg: Config, i: int, j: int)
    requires Fair(q) && Moves(q, lib, d, i) && ch.BoundaryReview? && Quiet(q, lib, n, ch, cfg) && !Wakes(q, d, ch)
    requires ReadsThere(ApplyBoundary(lib, i, d).lib.catalogue, ch, j) && j != i && j != 0
    ensures j in lib.catalogue.passages && !GoesOver(lib.catalogue.passages[j], ch, n, cfg)
  {
    hide ApplyBoundary;
    hide GoesOver;
    hide Quiet;
    hide Told;
    var a, c := ch.anchor, lib.catalogue;
    PlacesAfter(lib, i, d, a.audio, a.kind, a.span);
    PlacesAfter(lib, i, d, a.audio, a.kind, ch.target.span);
    assert j in c.passages;
    if ReadsThere(c, ch, j) {
      ReadIs(q, lib, ch, j);
      GoesOverIff(q, lib, ch, n, cfg);
    } else {
      assert ReadsThere(c, ch, i) && c.passages[i].span == a.span;
      ReadIs(q, lib, ch, i);
      GoesOverIff(q, lib, ch, n, cfg);
      NotToOther(c, i, j, d.target);
      UncoveredQuiet(c.passages[i], c.passages[j], ch, n, cfg);
    }
  }

  /** A passage is not moved to where another one of its file and kind is. */
  lemma NotToOther(c: Catalogue, i: int, j: int, u: Values)
    requires i in c.passages && j in c.passages && i != j && !Breaks(c, i, u) && OneFileEach(c)
    requires c.passages[i].file in c.files && c.passages[j].file in c.files
    requires c.files[c.passages[i].file] == c.files[c.passages[j].file] && c.passages[i].kind == c.passages[j].kind
    ensures c.passages[j].span != u.span
  {
  }

  lemma BoundaryAfterBoundary(q: Queries, lib: Library, n: int, ch: Change, d: Change, cfg: Config, i: int)
    requires Fair(q) && Moves(q, lib, d, i) && ch.BoundaryReview? && Quiet(q, lib, n, ch, cfg) && !Wakes(q, d, ch)
    ensures Quiet(q, ApplyBoundary(lib, i, d).lib, n, ch, cfg)
  {
    hide GoesOver;
    hide Wakes;
    var l := ApplyBoundary(lib, i, d).lib;
    MovedIsThere(lib, i, d);
    hide ApplyBoundary;
    if Read(q, l, ch).PassageRow? {
      ReadFrom(q, l, ch);
      var j := Read(q, l, ch).passage;
      if j == i {
        MovedSeen(q, lib, n, ch, d, cfg, i);
      } else {
        OtherSeen(q, lib, n, ch, d, cfg, i, j);
      }
      GoesOverIff(q, l, ch, n, cfg);
    }
  }

  // ------------------------------------------------------------- the other kinds

  /** A passage arrives where an id change looks only if it was moved there. */
  lemma BoundaryAfterId(q: Queries, lib: Library, n: int, ch: Change, d: Change, cfg: Config, i: int)
    requires Fair(q) && Moves(q, lib, d, i) && ch.IdReview? && Quiet(q, lib, n, ch, cfg) && !Wakes(q, d, ch)
    ensures Quiet(q, ApplyBoundary(lib, i, d).lib, n, ch, cfg)
  {
    hide ApplyBoundary;
    var a, c := ch.anchor, lib.catalogue;
    PlacesAfter(lib, i, d, a.audio, a.kind, a.span);
    BoundaryKeepsRest(lib, i, d);
    AtMostOne(c, a.audio, a.kind, a.span);
    assert Proper(c.passages[i].span) && KnownKind(c.passages[i].kind);
    assert i !in PassagesAt(c, a.audio, a.kind, a.span) ==>
      i !in PassagesAt(ApplyBoundary(lib, i, d).lib.catalogue, a.audio, a.kind, a.span);
  }

  lemma IdAfterId(q: Queries, lib: Library, n: int, ch: Change, d: Change, cfg: Config)
    requires Fair(q) && Sound(lib) && ch.IdReview? && d.IdReview? && d.dated && Read(q, lib, d).PassageRecording?
    requires Quiet(q, lib, n, ch, cfg) && !Wakes(q, d, ch) && ApplyId(lib, Read(q, lib, d).passage, d).Landed?
    ensures Quiet(q, ApplyId(lib, Read(q, lib, d).passage, d).lib, n, ch, cfg)
  {
    var i := Read(q, lib, d).passage;
    IdReadsBack(q, lib, i, d, Config(map[], true, false));
    if ch.anchor == d.anchor {
      PlaceOfPassage(q, lib, d);
      assert ch.mbid == d.mbid;
    } else {
      UndisturbedById(q, lib, ch, d);
      ReadAlike(q, lib, ApplyId(lib, i, d).lib, ch);
    }
  }

  lemma {:induction false} CreditedAsMade(lib: Library, mbid: string, credited: seq<Credit>)
    requires mbid !in lib.artistsOf
    ensures Entries(WithCredits(lib, mbid, credited).artistsOf, mbid) == Credited(credited)
  {
    if credited != [] {
      CreditedAsMade(lib, mbid, credited[..|credited| - 1]);
    }
  }

  lemma IdAfterArtist(q: Queries, lib: Library, n: int, ch: Change, d: Change, cfg: Config)
    requires Fair(q) && Sound(lib) && ch.ArtistReview? && d.IdReview? && d.dated && Read(q, lib, d).PassageRecording?
    requires Quiet(q, lib, n, ch, cfg) && !Wakes(q, d, ch) && ApplyId(lib, Read(q, lib, d).passage, d).Landed?
    ensures Quiet(q, ApplyId(lib, Read(q, lib, d).passage, d).lib, n, ch, cfg)
  {
    var i := Read(q, lib, d).passage;
    PlaceOfPassage(q, lib, d);
    hide Read;
    IdKeepsRest(lib, i, d);
    if d.mbid !in lib.recordings && d.mbid == ch.recording {
      var known := lib.(recordings := lib.recordings + {d.mbid});
      CreditedAsMade(known, d.mbid, d.credited);
    }
  }

  lemma ArtistAfterArtist(q: Queries, lib: Library, n: int, ch: Change, d: Change, cfg: Config)
    requires Fair(q) && ch.ArtistReview? && d.ArtistReview? && ApplyArtist(lib, d).Landed?
    requires d.recording in lib.recordings && Quiet(q, lib, n, ch, cfg) && !Wakes(q, d, ch)
    ensures Quiet(q, ApplyArtist(lib, d).lib, n, ch, cfg)
  {
    if ch.recording == d.recording {
      OneEntry(q, d.artist.value);
    }
  }

  lemma ReadCleared(q: Queries, l: Library, r: Reading, d: Change, cfg: Config, ch: Change)
    requires Fair(q)
    ensures Read(q, Cleared(l, r, d, cfg), ch) == Read(q, l, ch)
  {
    ClearedAlike(l, l, r, d, cfg, ch);
    ReadAlike(q, l, Cleared(l, r, d, cfg), ch);
  }

  /** A change that d does not wake stays quiet when d is applied. */
  lemma QuietAfterApplied(q: Queries, lib: Library, n: int, ch: Change, d: Change, cfg: Config)
    requires Fair(q) && Sound(lib) && Quiet(q, lib, n, ch, cfg) && !Wakes(q, d, ch)
    requires !Read(q, lib, d).Absent? && !d.Unknown?
    requires d.IdReview? ==> Read(q, lib, d).PassageRecording?
    requires d.BoundaryReview? ==> Read(q, lib, d).PassageRow? && Read(q, lib, d).passage in lib.catalogue.passages
    requires Apply(lib, Read(q, lib, d), d).Landed?
    ensures Quiet(q, Apply(lib, Read(q, lib, d), d).lib, n, ch, cfg)
  {
    hide Wakes;
    hide Quiet;
    hide ApplyId;
    hide ApplyBoundary;
    hide ApplyArtist;
    var r := Read(q, lib, d);
    LandedIsDated(lib, r, d);
    match (ch, d)
    case (IdReview(_, _, _, _, _, _), IdReview(_, _, _, _, _, _)) => IdAfterId(q, lib, n, ch, d, cfg);
    case (ArtistReview(_, _, _, _, _), IdReview(_, _, _, _, _, _)) => IdAfterArtist(q, lib, n, ch, d, cfg);
    case (ArtistReview(_, _, _, _, _), ArtistReview(_, _, _, _, _)) => ArtistAfterArtist(q, lib, n, ch, d, cfg);
    case (IdReview(_, _, _, _, _, _), BoundaryReview(_, _, _, _)) =>
      ReadFrom(q, lib, d);
      BoundaryAfterId(q, lib, n, ch, d, cfg, r.passage);
    case (BoundaryReview(_, _, _, _), BoundaryReview(_, _, _, _)) =>
      ReadFrom(q, lib, d);
      BoundaryAfterBoundary(q, lib, n, ch, d, cfg, r.passage);
    case _ => QuietUntouched(q, lib, n, ch, d, cfg);
  }

  lemma LandedIsDated(lib: Library, r: Reading, d: Change)
    requires !d.Unknown? && (d.IdReview? ==> r.PassageRecording?)
    requires d.BoundaryReview? ==> r.PassageRow? && r.passage in lib.catalogue.passages
    requires Apply(lib, r, d).Landed?
    ensures d.dated && (d.BoundaryReview? ==> !Breaks(lib.catalogue, r.passage, d.target))
  {
  }

  lemma QuietUntouched(q: Queries, lib: Library, n: int, ch: Change, d: Change, cfg: Config)
    requires Fair(q) && Quiet(q, lib, n, ch, cfg) && ThreeWayMerge.Independent(ch, d)
    requires !Read(q, lib, d).Absent? && !d.Unknown?
    requires d.IdReview? ==> Read(q, lib, d).PassageRecording?
    requires d.BoundaryReview? ==> Read(q, lib, d).PassageRow? && Read(q, lib, d).passage in lib.catalogue.passages
    ensures Quiet(q, Apply(lib, Read(q, lib, d), d).lib, n, ch, cfg)
  {
    AppliedAlike(q, lib, ch, d);
    ReadAlike(q, lib, Apply(lib, Read(q, lib, d), d).lib, ch);
  }

  /** A change that d does not wake stays quiet through d's turn. */
  lemma StaysQuiet(q: Queries, lib: Library, n: int, ch: Change, m: int, d: Change, cfg: Config)
    requires Fair(q) && Sound(lib) && Quiet(q, lib, n, ch, cfg) && !Wakes(q, d, ch)
    requires Consider(q, lib, m, d, cfg).1 != Failed
    ensures Quiet(q, Consider(q, lib, m, d, cfg).0, n, ch, cfg)
  {
    hide Wakes;
    hide Apply;
    hide Sound;
    hide Cleared;
    hide Read;
    hide Classify;
    var r := Read(q, lib, d);
    ReadFinds(q, lib, d);
    if Goes(Classify(r, d), m, cfg) && cfg.writing {
      GoesIsThere(r, d, m, cfg);
      QuietAfterApplied(q, lib, n, ch, d, cfg);
      ReadCleared(q, Apply(lib, r, d).lib, r, d, cfg, ch);
    }
  }

  // ------------------------------------------------------------------- the list

  /** No change of the list is refused when its turn comes. */
  ghost predicate NoneRefused(q: Queries, lib: Library, cs: seq<Change>, cfg: Config)
    requires Fair(q)
  {
    forall n {:trigger cs[n]} :: 0 <= n < |cs| ==>
      Consider(q, MergeAll(q, lib, cs[..n], cfg), n + 1, cs[n], cfg).1 != Failed
  }

  /** Every change of the list finds nothing to write when its turn comes. */
  ghost predicate Idle(q: Queries, lib: Library, cs: seq<Change>, cfg: Config)
    requires Fair(q)
  {
    forall n {:trigger cs[n]} :: 0 <= n < |cs| ==>
      Quiet(q, MergeAll(q, lib, cs[..n], cfg), n + 1, cs[n], cfg)
  }

  /** No change of the list wakes an earlier one. */
  ghost predicate NoneWakes(q: Queries, cs: seq<Change>)
  {
    forall i, j :: 0 <= i < j < |cs| ==> !Wakes(q, cs[j], cs[i])
  }

  lemma MergeOneMore(q: Queries, lib: Library, cs: seq<Change>, cfg: Config, n: nat)
    requires Fair(q) && n < |cs|
    ensures MergeAll(q, lib, cs[..n + 1], cfg) == Consider(q, MergeAll(q, lib, cs[..n], cfg), n + 1, cs[n], cfg).0
  {
    hide Consider;
    assert cs[..n + 1][..n] == cs[..n];
  }

  /** A change is quiet from its own turn on. */
  lemma {:induction false} QuietFromOwnTurn(q: Queries, lib: Library, cs: seq<Change>, cfg: Config, n: nat, k: nat)
    requires Fair(q) && Sound(lib) && cfg.writing && NoneRefused(q, lib, cs, cfg) && NoneWakes(q, cs)
    requires n < k <= |cs|
    ensures Quiet(q, MergeAll(q, lib, cs[..k], cfg), n + 1, cs[n], cfg)
  {
    hide Sound;
    hide MergeAll;
    hide Consider;
    hide Quiet;
    hide Wakes;
    var l := MergeAll(q, lib, cs[..k - 1], cfg);
    RunSound(q, lib, cs[..k - 1], cfg);
    MergeOneMore(q, lib, cs, cfg, k - 1);
    if k == n + 1 {
      QuietAfterwards(q, l, n + 1, cs[n], cfg);
    } else {
      QuietFromOwnTurn(q, lib, cs, cfg, n, k - 1);
      StaysQuiet(q, l, n + 1, cs[n], k, cs[k - 1], cfg);
    }
  }

  /** Where each change is quiet, the run is idle and writes nothing. */
  lemma {:induction false} AllQuiet(q: Queries, lib: Library, cs: seq<Change>, cfg: Config, k: nat)
    requires Fair(q) && k <= |cs| && forall n :: 0 <= n < |cs| ==> Quiet(q, lib, n + 1, cs[n], cfg)
    ensures MergeAll(q, lib, cs[..k], cfg) == lib
  {
    if k > 0 {
      assert cs[..k][..k - 1] == cs[..k - 1];
      AllQuiet(q, lib, cs, cfg, k - 1);
    }
  }

  /** A rehearsal writes nothing. */
  lemma {:induction false} RehearsalWritesNothing(q: Queries, lib: Library, cs: seq<Change>, cfg: Config)
    requires Fair(q) && !cfg.writing
    ensures MergeAll(q, lib, cs, cfg) == lib
  {
    if cs != [] {
      RehearsalWritesNothing(q, lib, cs[..|cs| - 1], cfg);
    }
  }

  /**
   The same list sent again: where no change wakes an earlier one and none is refused, the second run finds
   nothing to write, whatever was fast-forwarded, resolved or left in conflict by the first.
   */
  lemma ListSentTwice(q: Queries, lib: Library, cs: seq<Change>, cfg: Config)
    requires Fair(q) && Sound(lib) && NoneWakes(q, cs) && NoneRefused(q, lib, cs, cfg)
    ensures MergeAll(q, MergeAll(q, lib, cs, cfg), cs, cfg) == MergeAll(q, lib, cs, cfg)
    ensures cfg.writing ==> Idle(q, MergeAll(q, lib, cs, cfg), cs, cfg)
  {
    hide Quiet;
    var done := MergeAll(q, lib, cs, cfg);
    assert cs[..|cs|] == cs;
    if cfg.writing {
      forall n | 0 <= n < |cs| ensures Quiet(q, done, n + 1, cs[n], cfg) {
        QuietFromOwnTurn(q, lib, cs, cfg, n, |cs|);
      }
      forall n | 0 <= n <= |cs| ensures MergeAll(q, done, cs[..n], cfg) == done {
        AllQuiet(q, done, cs, cfg, n);
      }
    } else {
      RehearsalWritesNothing(q, lib, cs, cfg);
    }
  }

  // -------------------------------------------------------- libraries that let it

  /** In this library a change that was quiet has something to write after d's turn. */
  ghost predicate Awakens(q: Queries, lib: Library, ch: Change, d: Change, cfg: Config)
    requires Fair(q)
  {
    && Sound(lib) && cfg.writing && Quiet(q, lib, 1, ch, cfg)
    && Consider(q, lib, 2, d, cfg).1 == Wrote && !Quiet(q, Consider(q, lib, 2, d, cfg).0, 1, ch, cfg)
  }

  const BOTH := Config(map[1 := Theirs, 2 := Theirs], true, false)
  const LATER_ONLY := Config(map[2 := Theirs], true, false)
  const PLAIN := Fade(20, 20, "exponential", "exponential")

  /** One file, and the recordings and artists its passages are of. */
  ghost function Shelf(audio: string, passages: map<int, Passage>): Library
  {
    Library(Catalogue(map[1 := audio], passages, {}), {}, {}, map[], map[], {}, {}, {}, {})
  }

  ghost function Row(kind: string, span: Span, levels: Levels, fade: Fade): Passage
  {
    Passage(1, kind, span, levels, fade.inMs, fade.outMs, fade.inCurve, fade.outCurve, "auto")
  }

  ghost function FadeOr(f: Option<Fade>): Fade
  {
    if f.Some? then f.value else PLAIN
  }

  ghost function OtherFade(f: Fade): Fade
  {
    f.(inMs := f.inMs + 1)
  }

  ghost function OtherLead(l: Levels): Levels
  {
    l.(leadIn := Some(if l.leadIn.Some? then l.leadIn.value + 1 else 0))
  }

  lemma OneOnShelf(audio: string, p: Passage)
    requires p.file == 1 && Proper(p.span) && KnownKind(p.kind)
    ensures Sound(Shelf(audio, map[1 := p]))
  {
  }

  lemma ReadOnShelf(q: Queries, lib: Library, ch: Change, p: Passage)
    requires Fair(q) && ch.BoundaryReview? && p.file == 1 && p.kind == ch.anchor.kind
    requires lib.catalogue == Catalogue(map[1 := ch.anchor.audio], map[1 := p], {})
    ensures Read(q, lib, ch)
         == if p.span == ch.anchor.span || p.span == ch.target.span then PassageRow(1, p) else Absent
  {
    var a, c := ch.anchor, lib.catalogue;
    AloneAt(c, a.audio, p, a.kind, a.span);
    AloneAt(c, a.audio, p, a.kind, ch.target.span);
  }

  lemma MovedOnShelf(q: Queries, lib: Library, d: Change, p: Passage, cfg: Config)
    requires Fair(q) && d.BoundaryReview? && d.dated && p.file == 1 && p.kind == d.anchor.kind
    requires lib.catalogue == Catalogue(map[1 := d.anchor.audio], map[1 := p], {})
    requires (p.span == d.anchor.span || p.span == d.target.span) && Proper(d.target.span)
    requires GoesOver(p, d, 2, cfg) && cfg.writing
    ensures Consider(q, lib, 2, d, cfg).1 == Wrote
    ensures var l := Consider(q, lib, 2, d, cfg).0;
      && l.catalogue == Catalogue(map[1 := d.anchor.audio], map[1 := WithValues(p, d.target)], {})
      && l.credits == lib.credits && l.recordings == lib.recordings && l.artistsOf == lib.artistsOf
  {
    hide WithValues;
    ReadOnShelf(q, lib, d, p);
    hide Read;
    assert map[1 := p][1 := WithValues(p, d.target)] == map[1 := WithValues(p, d.target)];
  }

  /** A passage that ch leaves alone, or does not read, and goes over once d has moved it. */
  lemma WokenByOne(q: Queries, ch: Change, d: Change, p: Passage, cfg: Config)
    requires Fair(q) && ch.BoundaryReview? && d.BoundaryReview? && d.dated && Proper(d.target.span)
    requires ch.anchor.audio == d.anchor.audio && ch.anchor.kind == d.anchor.kind == p.kind
    requires p.file == 1 && Proper(p.span) && KnownKind(p.kind)
    requires p.span == d.anchor.span || p.span == d.target.span
    requires !SameValues(p, d.target, d.target.fade.Some?) && (cfg == BOTH || cfg == LATER_ONLY)
    requires p.span == ch.anchor.span || p.span == ch.target.span ==> !GoesOver(p, ch, 1, cfg)
    requires d.target.span == ch.anchor.span || d.target.span == ch.target.span
    requires GoesOver(WithValues(p, d.target), ch, 1, cfg)
    ensures Awakens(q, Shelf(d.anchor.audio, map[1 := p]), ch, d, cfg)
  {
    var lib := Shelf(d.anchor.audio, map[1 := p]);
    OneOnShelf(d.anchor.audio, p);
    ReadOnShelf(q, lib, ch, p);
    MovedOnShelf(q, lib, d, p, cfg);
    ReadOnShelf(q, Consider(q, lib, 2, d, cfg).0, ch, WithValues(p, d.target));
  }

  lemma OverwritingWakes(q: Queries, ch: Change, d: Change) returns (lib: Library, cfg: Config)
    requires Fair(q) && ch.BoundaryReview? && d.BoundaryReview? && Wakes(q, d, ch) && d.target.span == ch.target.span
    ensures Awakens(q, lib, ch, d, cfg)
  {
    var t, u, kind := ch.target, d.target, ch.anchor.kind;
    var p;
    if !SameLevels(u.levels, t.levels) || (t.fade.Some? && u.fade.Some? && u.fade != t.fade) {
      p, cfg := Row(kind, t.span, t.levels, FadeOr(t.fade)), BOTH;
    } else if Proper(d.anchor.span) && d.anchor.span != ch.anchor.span && d.anchor.span != t.span {
      p, cfg := Row(kind, d.anchor.span, t.levels, OtherFade(t.fade.value)), BOTH;
    } else {
      p, cfg := Row(kind, t.span, OtherLead(ch.before.levels), ch.before.fade.value), LATER_ONLY;
    }
    WokenByOne(q, ch, d, p, cfg);
    lib := Shelf(d.anchor.audio, map[1 := p]);
  }

  lemma RestoringWakes(q: Queries, ch: Change, d: Change) returns (lib: Library, cfg: Config)
    requires Fair(q) && ch.BoundaryReview? && d.BoundaryReview? && Wakes(q, d, ch)
    requires d.target.span == ch.anchor.span != ch.target.span
    ensures Awakens(q, lib, ch, d, cfg)
  {
    var t, u, kind := ch.target, d.target, ch.anchor.kind;
    var p;
    if Proper(d.anchor.span) && d.anchor.span != ch.anchor.span {
      p, cfg := Row(kind, d.anchor.span, t.levels, FadeOr(t.fade)), BOTH;
    } else {
      p, cfg := Row(kind, ch.anchor.span, OtherLead(ch.before.levels), FadeOr(ch.before.fade)), LATER_ONLY;
    }
    WokenByOne(q, ch, d, p, cfg);
    lib := Shelf(d.anchor.audio, map[1 := p]);
  }

  /** A gain the comparison takes for the first, and not for the second. */
  ghost function ToldGain(a: Option<real>, b: Option<real>): Option<real>
  {
    match (a, b)
    case (Some(x), Some(y)) =>
      if x == y || !SameGain(a, b) then a else Some(x + (if x > y then 0.0001 else -0.0001) - (x - y) / 2.0)
    case _ => a
  }

  /** A passage with the baseline's values that the target does not match. */
  ghost function Teller(kind: string, before: Values, t: Values): Passage
  {
    Row(kind, t.span, before.levels.(gain := ToldGain(before.levels.gain, t.levels.gain)), FadeOr(before.fade))
  }

  lemma TellerTells(kind: string, before: Values, t: Values)
    requires before.span == t.span && Told(before, t)
    ensures var r := Teller(kind, before, t);
      SameValues(r, before, t.fade.Some?) && !SameValues(r, t, t.fade.Some?)
  {
  }

  lemma TwoOnShelf(audio: string, p: Passage, r: Passage)
    requires p.file == r.file == 1 && p.kind == r.kind && p.span != r.span
    requires Proper(p.span) && Proper(r.span) && KnownKind(p.kind)
    ensures Sound(Shelf(audio, map[1 := p, 2 := r]))
  {
  }

  lemma ReadOfTwo(q: Queries, lib: Library, ch: Change, p: Passage, r: Passage)
    requires Fair(q) && ch.BoundaryReview? && p.file == r.file == 1 && p.kind == r.kind == ch.anchor.kind
    requires lib.catalogue == Catalogue(map[1 := ch.anchor.audio], map[1 := p, 2 := r], {})
    requires p.span != r.span && r.span != ch.anchor.span
    ensures p.span == ch.anchor.span ==> Read(q, lib, ch) == PassageRow(1, p)
    ensures p.span != ch.anchor.span && r.span == ch.target.span ==> Read(q, lib, ch) == PassageRow(2, r)
  {
    var a, c := ch.anchor, lib.catalogue;
    assert PassagesAt(c, a.audio, a.kind, a.span) == if p.span == a.span then {1} else {};
    assert r.span == ch.target.span ==> PassagesAt(c, a.audio, a.kind, ch.target.span) == {2};
  }

  lemma MovedOfTwo(q: Queries, lib: Library, d: Change, p: Passage, r: Passage)
    requires Fair(q) && d.BoundaryReview? && d.dated && p.file == r.file == 1 && p.kind == r.kind == d.anchor.kind
    requires lib.catalogue == Catalogue(map[1 := d.anchor.audio], map[1 := p, 2 := r], {})
    requires p.span == d.anchor.span != r.span && d.target.span != r.span && d.target.span != p.span
    requires Proper(d.target.span)
    ensures Consider(q, lib, 2, d, LATER_ONLY).1 == Wrote
    ensures Consider(q, lib, 2, d, LATER_ONLY).0.catalogue
         == Catalogue(map[1 := d.anchor.audio], map[1 := WithValues(p, d.target), 2 := r], {})
  {
    ReadOfTwo(q, lib, d, p, r);
    hide Read;
    assert Goes(Classify(PassageRow(1, p), d), 2, LATER_ONLY);
    var rows := map[1 := p, 2 := r];
    assert rows[1 := WithValues(p, d.target)] == map[1 := WithValues(p, d.target), 2 := r];
  }

  lemma UncoveringWakes(q: Queries, ch: Change, d: Change) returns (lib: Library, cfg: Config)
    requires Fair(q) && ch.BoundaryReview? && d.BoundaryReview? && Wakes(q, d, ch)
    requires d.target.span != ch.target.span && d.target.span != ch.anchor.span
    ensures Awakens(q, lib, ch, d, cfg)
  {
    var t, kind := ch.target, ch.anchor.kind;
    var p, r := Row(kind, ch.anchor.span, t.levels, PLAIN), Teller(kind, ch.before, t);
    TellerTells(kind, ch.before, t);
    cfg, lib := LATER_ONLY, Shelf(d.anchor.audio, map[1 := p, 2 := r]);
    TwoOnShelf(d.anchor.audio, p, r);
    ReadOfTwo(q, lib, ch, p, r);
    MovedOfTwo(q, lib, d, p, r);
    ReadOfTwo(q, Consider(q, lib, 2, d, cfg).0, ch, WithValues(p, d.target), r);
  }

  lemma ReadIdOnShelf(q: Queries, lib: Library, ch: Change, p: Passage)
    requires Fair(q) && ch.IdReview? && p.file == 1 && p.kind == ch.anchor.kind
    requires lib.catalogue == Catalogue(map[1 := ch.anchor.audio], map[1 := p], {})
    ensures Read(q, lib, ch)
         == if p.span == ch.anchor.span then PassageRecording(1, Heaviest(q, Entries(lib.credits, 1))) else Absent
  {
    var a, c := ch.anchor, lib.catalogue;
    AloneAt(c, a.audio, p, a.kind, a.span);
  }

  lemma ArrivalWakes(q: Queries, ch: Change, d: Change) returns (lib: Library, cfg: Config)
    requires Fair(q) && ch.IdReview? && d.BoundaryReview? && Wakes(q, d, ch)
    ensures Awakens(q, lib, ch, d, cfg)
  {
    var b := d.anchor;
    var p := Row(b.kind, b.span, d.target.levels, PLAIN);
    cfg, lib := BOTH, Shelf(b.audio, map[1 := p]);
    OneOnShelf(b.audio, p);
    ReadIdOnShelf(q, lib, ch, p);
    MovedOnShelf(q, lib, d, p, cfg);
    ReadIdOnShelf(q, Consider(q, lib, 2, d, cfg).0, ch, WithValues(p, d.target));
  }

  /** A shelf whose one passage is of a recording. */
  ghost function Shelved(audio: string, p: Passage, mbid: string, recordings: set<string>): Library
  {
    Shelf(audio, map[1 := p]).(credits := map[1 := map[mbid := 1.0]], recordings := recordings)
  }

  lemma ReassignmentWakes(q: Queries, ch: Change, d: Change) returns (lib: Library, cfg: Config)
    requires Fair(q) && ch.IdReview? && d.IdReview? && Wakes(q, d, ch)
    ensures Awakens(q, lib, ch, d, cfg)
  {
    var a := ch.anchor;
    var p := Row(a.kind, a.span, Levels(None, None, None), PLAIN);
    cfg, lib := BOTH, Shelved(a.audio, p, ch.mbid, {ch.mbid, d.mbid});
    OneOnShelf(a.audio, p);
    ReadIdOnShelf(q, lib, ch, p);
    ReadIdOnShelf(q, lib, d, p);
    OneEntry(q, ch.mbid);
    OneEntry(q, d.mbid);
    hide Read;
    assert Goes(Classify(Read(q, lib, d), d), 2, cfg);
    ReadIdOnShelf(q, Consider(q, lib, 2, d, cfg).0, ch, p);
  }

  lemma CreditingWakes(q: Queries, ch: Change, d: Change) returns (lib: Library, cfg: Config)
    requires Fair(q) && ch.ArtistReview? && d.IdReview? && Wakes(q, d, ch)
    ensures Awakens(q, lib, ch, d, cfg)
  {
    var b := d.anchor;
    var p := Row(b.kind, b.span, Levels(None, None, None), PLAIN);
    cfg, lib := BOTH, Shelf(b.audio, map[1 := p]);
    OneOnShelf(b.audio, p);
    ReadIdOnShelf(q, lib, d, p);
    assert Goes(Classify(Read(q, lib, d), d), 2, cfg);
    var known := lib.(recordings := lib.recordings + {d.mbid});
    CreditedAsMade(known, d.mbid, d.credited);
    CreditsKeepCatalogue(known, d.mbid, d.credited);
    assert Heaviest(q, Entries(lib.credits, 1)) == None;
  }

  lemma RelinkingWakes(q: Queries, ch: Change, d: Change) returns (lib: Library, cfg: Config)
    requires Fair(q) && ch.ArtistReview? && d.ArtistReview? && Wakes(q, d, ch)
    ensures Awakens(q, lib, ch, d, cfg)
  {
    cfg, lib := BOTH, OneRecording(ch.recording, ch.artist);
    LinkedReads(q, ch.recording, ch.artist);
    OneEntry(q, d.artist.value);
  }

  /** A library of one recording, and its artist if it has one. */
  ghost function OneRecording(r: string, artist: Option<string>): Library
  {
    var empty := Shelf("", map[]).(recordings := {r});
    if artist.None? then empty else empty.(artists := {artist.value}, artistsOf := map[r := map[artist.value := 1.0]])
  }

  lemma LinkedReads(q: Queries, r: string, artist: Option<string>)
    requires Fair(q)
    ensures var lib := OneRecording(r, artist);
      Sound(lib) && lib.recordings == {r} && Heaviest(q, Entries(lib.artistsOf, r)) == artist
  {
    if artist.Some? {
      OneEntry(q, artist.value);
    }
  }

  /** Where a change wakes an earlier one, there is a library that lets it. */
  lemma SomeLibrary(q: Queries, ch: Change, d: Change) returns (lib: Library, cfg: Config)
    requires Fair(q) && Wakes(q, d, ch)
    ensures Awakens(q, lib, ch, d, cfg)
  {
    hide Awakens;
    hide MovesUnder;
    match (ch, d)
    case (IdReview(_, _, _, _, _, _), IdReview(_, _, _, _, _, _)) => lib, cfg := ReassignmentWakes(q, ch, d);
    case (IdReview(_, _, _, _, _, _), BoundaryReview(_, _, _, _)) => lib, cfg := ArrivalWakes(q, ch, d);
    case (ArtistReview(_, _, _, _, _), IdReview(_, _, _, _, _, _)) => lib, cfg := CreditingWakes(q, ch, d);
    case (ArtistReview(_, _, _, _, _), ArtistReview(_, _, _, _, _)) => lib, cfg := RelinkingWakes(q, ch, d);
    case (BoundaryReview(_, _, _, _), BoundaryReview(_, _, _, _)) =>
      if d.target.span == ch.target.span {
        lib, cfg := OverwritingWakes(q, ch, d);
      } else if d.target.span == ch.anchor.span {
        lib, cfg := RestoringWakes(q, ch, d);
      } else {
        lib, cfg := UncoveringWakes(q, ch, d);
      }
  }

  // ---------------------------------------------------------------- two changes

  /** The list, if none of it is refused, is idle when it is sent to this library again. */
  ghost predicate IdleAgain(q: Queries, lib: Library, cs: seq<Change>, cfg: Config)
    requires Fair(q)
  {
    Sound(lib) && cfg.writing && NoneRefused(q, lib, cs, cfg) ==> Idle(q, MergeAll(q, lib, cs, cfg), cs, cfg)
  }

  lemma NotIdleAgain(q: Queries, lib: Library, ch: Change, d: Change, cfg: Config)
    requires Fair(q) && Awakens(q, lib, ch, d, cfg)
    ensures !IdleAgain(q, lib, [ch, d], cfg)
  {
    hide Sound;
    hide Quiet;
    hide Consider;
    var cs := [ch, d];
    QuietTurn(q, lib, 1, ch, cfg);
    TwoTurns(q, lib, ch, d, cfg);
    assert cs[0] == ch && cs[1] == d;
    var done := MergeAll(q, lib, cs, cfg);
    assert MergeAll(q, done, cs[..0], cfg) == done;
  }

  lemma TwoTurns(q: Queries, lib: Library, ch: Change, d: Change, cfg: Config)
    requires Fair(q)
    ensures var cs, l := [ch, d], Consider(q, lib, 1, ch, cfg).0;
      && MergeAll(q, lib, cs[..0], cfg) == lib && MergeAll(q, lib, cs[..1], cfg) == l
      && MergeAll(q, lib, cs, cfg) == Consider(q, l, 2, d, cfg).0
  {
    hide Consider;
    var cs := [ch, d];
    assert cs[..0] == [] && cs[..2] == cs;
    MergeOneMore(q, lib, cs, cfg, 0);
    MergeOneMore(q, lib, cs, cfg, 1);
  }

  lemma QuietTurn(q: Queries, lib: Library, n: int, ch: Change, cfg: Config)
    requires Fair(q) && Quiet(q, lib, n, ch, cfg)
    ensures Consider(q, lib, n, ch, cfg).0 == lib && Consider(q, lib, n, ch, cfg).1.Left?
  {
  }

  /** Two changes are idle again, in whatever library, exactly when the later does not wake the earlier. */
  lemma PairSentTwiceIff(q: Queries, ch: Change, d: Change)
    requires Fair(q)
    ensures (forall lib, cfg :: IdleAgain(q, lib, [ch, d], cfg)) <==> !Wakes(q, d, ch)
  {
    if Wakes(q, d, ch) {
      var lib, cfg := SomeLibrary(q, ch, d);
      NotIdleAgain(q, lib, ch, d, cfg);
    } else {
      forall lib, cfg ensures IdleAgain(q, lib, [ch, d], cfg) {
        if Sound(lib) && cfg.writing && NoneRefused(q, lib, [ch, d], cfg) {
          ListSentTwice(q, lib, [ch, d], cfg);
        }
      }
    }
  }

  /** No change of a list wakes an earlier one exactly when every two of them, in their order, are idle again. */
  lemma NoneWakesIff(q: Queries, cs: seq<Change>)
    requires Fair(q)
    ensures NoneWakes(q, cs)
      <==> forall i, j, lib, cfg :: 0 <= i < j < |cs| ==> IdleAgain(q, lib, [cs[i], cs[j]], cfg)
  {
    hide Wakes;
    hide IdleAgain;
    forall i, j | 0 <= i < j < |cs|
      ensures (forall lib, cfg :: IdleAgain(q, lib, [cs[i], cs[j]], cfg)) <==> !Wakes(q, cs[j], cs[i])
    {
      PairSentTwiceIff(q, cs[i], cs[j]);
    }
  }

  // A passage moved and then given another recording, as the machine that did both exports it: the id change
  // is anchored where the passage now is, and comes first.

  ghost function GivenAnother(): Change
  {
    IdReview(Anchor("audio", "radio", Span(2, 8)), Some("old"), "new", None, [], true)
  }

  ghost function MovedFirst(): Change
  {
    var from, to, levels := Span(0, 10), Span(2, 8), Levels(None, None, None);
    BoundaryReview(Anchor("audio", "radio", from), Values(from, levels, None), Values(to, levels, None), true)
  }

  ghost function Unmoved(): Passage
  {
    Row("radio", Span(0, 10), Levels(None, None, None), PLAIN)
  }

  /** The machine that has neither edit. */
  ghost function Receiver(): Library
  {
    Shelved("audio", Unmoved(), "old", {"old", "new"})
  }

  lemma FirstSending(q: Queries, cfg: Config)
    requires Fair(q) && cfg == Config(map[], true, false)
    ensures var lib := Receiver();
      var done := Consider(q, lib, 2, MovedFirst(), cfg).0;
      && Sound(lib) && Consider(q, lib, 1, GivenAnother(), cfg) == (lib, Left(Missing))
      && Consider(q, lib, 2, MovedFirst(), cfg).1 == Wrote
      && done.catalogue == Catalogue(map[1 := "audio"], map[1 := WithValues(Unmoved(), MovedFirst().target)], {})
      && done.credits == map[1 := map["old" := 1.0]] && done.recordings == {"old", "new"}
  {
    OneOnShelf("audio", Unmoved());
    ReadIdOnShelf(q, Receiver(), GivenAnother(), Unmoved());
    MovedOnShelf(q, Receiver(), MovedFirst(), Unmoved(), cfg);
  }

  lemma SecondSending(q: Queries, lib: Library, cfg: Config)
    requires Fair(q) && cfg == Config(map[], true, false)
    requires lib.catalogue == Catalogue(map[1 := "audio"], map[1 := WithValues(Unmoved(), MovedFirst().target)], {})
    requires lib.credits == map[1 := map["old" := 1.0]] && lib.recordings == {"old", "new"}
    ensures var (l, o) := Consider(q, lib, 1, GivenAnother(), cfg);
      o == Wrote && Entries(l.credits, 1) == map["new" := 1.0]
  {
    ReadIdOnShelf(q, lib, GivenAnother(), WithValues(Unmoved(), MovedFirst().target));
    hide Read;
    OneEntry(q, "old");
  }

  /** No decision is asked for and none refused; the id change is not found the first time, and lands the second. */
  lemma ExportedListWritesLater(q: Queries)
    requires Fair(q)
    ensures var lib, cs, cfg := Receiver(), [GivenAnother(), MovedFirst()], Config(map[], true, false);
      var done := MergeAll(q, lib, cs, cfg);
      && Sound(lib) && NoneRefused(q, lib, cs, cfg)
      && Consider(q, lib, 1, cs[0], cfg).1 == Left(Missing) && Consider(q, done, 1, cs[0], cfg).1 == Wrote
      && Entries(done.credits, 1) == map["old" := 1.0]
      && Entries(MergeAll(q, done, cs, cfg).credits, 1) == map["new" := 1.0]
  {
    hide Receiver;
    hide GivenAnother;
    hide Sound;
    hide MergeAll;
    var lib, ch, d, cfg := Receiver(), GivenAnother(), MovedFirst(), Config(map[], true, false);
    FirstSending(q, cfg);
    TwoTurns(q, lib, ch, d, cfg);
    var done := Consider(q, lib, 2, d, cfg).0;
    SecondSending(q, done, cfg);
    TwoTurns(q, done, ch, d, cfg);
    BoundaryKeepsCredits(q, Consider(q, done, 1, ch, cfg).0, 2, d, cfg);
    hide Consider;
    assert [ch, d][0] == ch && [ch, d][1] == d;
  }

  lemma BoundaryKeepsCredits(q: Queries, lib: Library, n: int, d: Change, cfg: Config)
    requires Fair(q) && d.BoundaryReview?
    ensures Consider(q, lib, n, d, cfg).0.credits == lib.credits
  {
  }
}
