/**
 Merging another machine's decisions into this library, as tools/apply_changes.py does it: each change
 carries an anchor, the value it was made over, and the value it sets.

 A refused change is rolled back statement by statement only, so what its earlier statements wrote stays.
 Which of several matching rows the database returns first is a parameter.
 */
module ThreeWayMerge {
  import opened Optional
  import opened BoundaryReviews

  // -------------------------------------------------------------------- the data

  datatype Fade = Fade(inMs: int, outMs: int, inCurve: string, outCurve: string)

  datatype Values = Values(span: Span, levels: Levels, fade: Option<Fade>)

  datatype Anchor = Anchor(audio: string, kind: string, span: Span)

  datatype Credit = Credit(mbid: string, name: Option<string>)

  /** A decision of another machine; `dated` when it carries the time it was made at, which every review row must. */
  datatype Change =
    | IdReview(anchor: Anchor, was: Option<string>, mbid: string, title: Option<string>, credited: seq<Credit>,
               dated: bool)
    | BoundaryReview(anchor: Anchor, before: Values, target: Values, dated: bool)
    | ArtistReview(recording: string, previous: Option<string>, artist: Option<string>, name: Option<string>,
                   dated: bool)
    | Unknown

  type Weights = map<string, real>

  datatype Flag = OnPassage(passage: int) | OnRecording(mbid: string)

  datatype Library = Library(
    catalogue: Catalogue, recordings: set<string>, artists: set<string>,
    credits: map<int, Weights>, artistsOf: map<string, Weights>,
    idStamps: set<int>, boundaryStamps: set<int>, artistStamps: set<string>, flags: set<Flag>)

  function Entries<K>(m: map<K, Weights>, k: K): Weights
  {
    if k in m then m[k] else map[]
  }

  /** Which row a query without a full ORDER BY returns: the database's choice, the same for the same rows. */
  datatype Queries = Queries(first: set<int> -> int, heaviest: Weights -> string)

  ghost predicate Fair(q: Queries)
  {
    && (forall s :: s != {} ==> q.first(s) in s)
    && (forall m: Weights :: m != map[] ==> q.heaviest(m) in m && forall k :: k in m ==> m[k] <= m[q.heaviest(m)])
  }

  // --------------------------------------------------------------------- reading

  /** The passages of this audio and kind at a span. */
  function PassagesAt(c: Catalogue, audio: string, kind: string, span: Span): set<int>
  {
    set i | i in c.passages && c.passages[i].file in c.files && c.files[c.passages[i].file] == audio
            && c.passages[i].kind == kind && c.passages[i].span == span
  }

  function Resolve(q: Queries, c: Catalogue, a: Anchor, span: Span): Option<int>
  {
    var found := PassagesAt(c, a.audio, a.kind, span);
    if found == {} then None else Some(q.first(found))
  }

  /** A boundary change is found at its anchor's span, or else where it would have put the passage. */
  function ResolveBoundary(q: Queries, c: Catalogue, ch: Change): Option<int>
    requires ch.BoundaryReview?
  {
    match Resolve(q, c, ch.anchor, ch.anchor.span)
    case Some(i) => Some(i)
    case None => Resolve(q, c, ch.anchor, ch.target.span)
  }

  function Heaviest(q: Queries, m: Weights): Option<string>
  {
    if m == map[] then None else Some(q.heaviest(m))
  }

  /** What the library holds where a change applies. */
  datatype Reading =
    | Absent
    | PassageRecording(passage: int, mbid: Option<string>)
    | PassageRow(passage: int, row: Passage)
    | RecordingArtist(artist: Option<string>)

  /** A passage id of 0 is read as none. */
  function Read(q: Queries, lib: Library, ch: Change): Reading
    requires Fair(q)
  {
    match ch
    case IdReview(a, _, _, _, _, _) =>
      (match Resolve(q, lib.catalogue, a, a.span)
       case None => Absent
       case Some(i) => if i == 0 then Absent else PassageRecording(i, Heaviest(q, Entries(lib.credits, i))))
    case BoundaryReview(_, _, _, _) =>
      (match ResolveBoundary(q, lib.catalogue, ch)
       case None => Absent
       case Some(i) => if i == 0 then Absent else PassageRow(i, lib.catalogue.passages[i]))
    case ArtistReview(r, _, _, _, _) =>
      if r in lib.recordings then RecordingArtist(Heaviest(q, Entries(lib.artistsOf, r))) else Absent
    case Unknown => Absent
  }

  /** Two gains within a ten-thousandth are the same. */
  predicate SameGain(a: Option<real>, b: Option<real>)
  {
    match (a, b)
    case (Some(x), Some(y)) => -0.0001 < x - y < 0.0001
    case _ => a == b
  }

  function FadeOf(p: Passage): Fade
  {
    Fade(p.fadeIn, p.fadeOut, p.fadeInCurve, p.fadeOutCurve)
  }

  /** The passage has these values; fades count only when the change has an opinion on them. */
  predicate SameValues(p: Passage, v: Values, fades: bool)
  {
    && p.span == v.span && p.levels.leadIn == v.levels.leadIn && p.levels.leadOut == v.levels.leadOut
    && SameGain(p.levels.gain, v.levels.gain)
    && (fades ==> v.fade == Some(FadeOf(p)))
  }

  predicate MatchesTarget(r: Reading, ch: Change)
  {
    match (r, ch)
    case (PassageRecording(_, mbid), IdReview(_, _, target, _, _, _)) => mbid == Some(target)
    case (PassageRow(_, p), BoundaryReview(_, _, target, _)) => SameValues(p, target, target.fade.Some?)
    case (RecordingArtist(artist), ArtistReview(_, _, target, _, _)) => artist == target
    case _ => false
  }

  predicate MatchesBaseline(r: Reading, ch: Change)
  {
    match (r, ch)
    case (PassageRecording(_, mbid), IdReview(_, was, _, _, _, _)) => mbid == was
    case (PassageRow(_, p), BoundaryReview(_, before, target, _)) => SameValues(p, before, target.fade.Some?)
    case (RecordingArtist(artist), ArtistReview(_, previous, _, _, _)) => artist == previous
    case _ => false
  }

  datatype Verdict = Missing | Noop | FastForward | Conflict

  /** The three-way merge: the target is looked for before the baseline. */
  function Classify(r: Reading, ch: Change): Verdict
  {
    if r.Absent? then Missing
    else if MatchesTarget(r, ch) then Noop
    else if MatchesBaseline(r, ch) then FastForward
    else Conflict
  }

  // -------------------------------------------------------------------- applying

  datatype Applied = Landed(lib: Library) | Refused(lib: Library)

  /** The artists a change brings for a recording it creates; a nameless one is passed over. */
  function WithCredits(lib: Library, mbid: string, credited: seq<Credit>): Library
  {
    if credited == [] then lib
    else
      var l := WithCredits(lib, mbid, credited[..|credited| - 1]);
      var a := credited[|credited| - 1];
      if a.name.None? || a.name.value == "" then l
      else
        var held := Entries(l.artistsOf, mbid);
        l.(artists := l.artists + {a.mbid},
           artistsOf := l.artistsOf[mbid := if a.mbid in held then held else held[a.mbid := 1.0]])
  }

  function ApplyId(lib: Library, i: int, ch: Change): Applied
    requires ch.IdReview?
  {
    if ch.mbid !in lib.recordings && (ch.title.None? || ch.title.value == "") then Refused(lib)
    else
      var l := if ch.mbid in lib.recordings then lib
               else WithCredits(lib.(recordings := lib.recordings + {ch.mbid}), ch.mbid, ch.credited);
      var l' := l.(credits := l.credits[i := map[ch.mbid := 1.0]]);
      if !ch.dated then Refused(l') else Landed(l'.(idStamps := l'.idStamps + {i}))
  }

  function WithValues(p: Passage, t: Values): Passage
  {
    var p1 := p.(span := t.span, levels := t.levels, source := "manual");
    match t.fade
    case None => p1
    case Some(f) => p1.(fadeIn := f.inMs, fadeOut := f.outMs, fadeInCurve := f.inCurve, fadeOutCurve := f.outCurve)
  }

  /** The update of the passage breaks a constraint of its table. */
  predicate Breaks(c: Catalogue, i: int, t: Values)
    requires i in c.passages
  {
    !Proper(t.span) || exists j :: j in c.passages && j != i && SamePlace(c.passages[j], WithValues(c.passages[i], t))
  }

  function MovedCatalogue(c: Catalogue, i: int, ch: Change): Catalogue
    requires ch.BoundaryReview? && i in c.passages
  {
    var c1 := c.(passages := c.passages[i := WithValues(c.passages[i], ch.target)]);
    var left := Extract(ch.anchor.audio, ch.anchor.span);
    if ch.target.span != ch.anchor.span && !StillUsed(c1, i, left) then c1.(cache := c1.cache - {left}) else c1
  }

  function ApplyBoundary(lib: Library, i: int, ch: Change): Applied
    requires ch.BoundaryReview? && i in lib.catalogue.passages
  {
    if Breaks(lib.catalogue, i, ch.target) then Refused(lib)
    else
      var l := lib.(catalogue := MovedCatalogue(lib.catalogue, i, ch));
      if !ch.dated then Refused(l) else Landed(l.(boundaryStamps := l.boundaryStamps + {i}))
  }

  /**
   The artist made known, the recording's artists cleared, the new one linked, the review stamped: four
   statements.
   */
  function ApplyArtist(lib: Library, ch: Change): Applied
    requires ch.ArtistReview?
  {
    var l1 := if ch.artist.Some? && ch.name.Some? then lib.(artists := lib.artists + {ch.artist.value}) else lib;
    var l2 := l1.(artistsOf := l1.artistsOf - {ch.recording});
    if ch.artist.None? || ch.artist.value !in l2.artists then Refused(l2)
    else
      var l3 := l2.(artistsOf := l2.artistsOf[ch.recording := map[ch.artist.value := 1.0]]);
      if ch.name.None? || !ch.dated then Refused(l3) else Landed(l3.(artistStamps := l3.artistStamps + {ch.recording}))
  }

  function Subjects(i: Option<int>, ch: Change): set<Flag>
  {
    (if i.Some? then {OnPassage(i.value)} else {})
    + match ch
      case IdReview(_, was, mbid, _, _, _) =>
        {OnRecording(mbid)} + if was.Some? && was.value != "" then {OnRecording(was.value)} else {}
      case ArtistReview(r, _, _, _, _) => {OnRecording(r)}
      case _ => {}
  }

  /** A change applied where the library reads it. */
  function Apply(lib: Library, r: Reading, ch: Change): Applied
    requires !ch.Unknown?
    requires ch.IdReview? ==> r.PassageRecording?
    requires ch.BoundaryReview? ==> r.PassageRow? && r.passage in lib.catalogue.passages
  {
    match ch
    case IdReview(_, _, _, _, _, _) => ApplyId(lib, r.passage, ch)
    case BoundaryReview(_, _, _, _) => ApplyBoundary(lib, r.passage, ch)
    case ArtistReview(_, _, _, _, _) => ApplyArtist(lib, ch)
  }

  datatype Resolution = Ours | Theirs | Skip

  datatype Config = Config(resolutions: map<int, Resolution>, writing: bool, clearFlags: bool)

  datatype Outcome = Left(verdict: Verdict) | Rehearsed | Wrote | Failed

  /** A verdict that leads to the change being applied. */
  predicate Goes(v: Verdict, n: int, cfg: Config)
  {
    v == FastForward || (v == Conflict && n in cfg.resolutions && cfg.resolutions[n] == Theirs)
  }

  function Cleared(lib: Library, r: Reading, ch: Change, cfg: Config): Library
  {
    if !cfg.clearFlags then lib
    else
      var i := if r.PassageRecording? || r.PassageRow? then Some(r.passage) else None;
      lib.(flags := lib.flags - Subjects(i, ch))
  }

  /** One change, the n-th of the list. */
  function Consider(q: Queries, lib: Library, n: int, ch: Change, cfg: Config): (Library, Outcome)
    requires Fair(q)
  {
    var r := Read(q, lib, ch);
    var v := Classify(r, ch);
    if !Goes(v, n, cfg) then (lib, Left(v))
    else if !cfg.writing then (lib, Rehearsed)
    else
      match Apply(lib, r, ch)
      case Landed(l) => (Cleared(l, r, ch, cfg), Wrote)
      case Refused(l) => (l, Failed)
  }

  // ------------------------------------------------------------- what stays true

  ghost predicate Linked(lib: Library)
  {
    && (forall i :: i in lib.credits ==> i in lib.catalogue.passages && lib.credits[i].Keys <= lib.recordings)
    && (forall r :: r in lib.artistsOf ==> r in lib.recordings && lib.artistsOf[r].Keys <= lib.artists)
  }

  /** UNIQUE (audio_md5): each audio is catalogued as one file. */
  ghost predicate OneFileEach(c: Catalogue)
  {
    forall f, g :: f in c.files && g in c.files && c.files[f] == c.files[g] ==> f == g
  }

  /** CHECK (kind IN ('album','radio')) */
  predicate KnownKind(kind: string)
  {
    kind == "album" || kind == "radio"
  }

  ghost predicate KindsKnown(c: Catalogue)
  {
    forall i :: i in c.passages ==> KnownKind(c.passages[i].kind)
  }

  /** The schema's constraints, and no cached features for audio no passage uses. */
  ghost predicate Sound(lib: Library)
  {
    && Valid(lib.catalogue) && OneFileEach(lib.catalogue) && KindsKnown(lib.catalogue)
    && Covered(lib.catalogue) && Linked(lib)
  }

  lemma {:induction false} CreditsSound(lib: Library, mbid: string, credited: seq<Credit>)
    requires Linked(lib) && mbid in lib.recordings
    ensures var l := WithCredits(lib, mbid, credited);
      && Linked(l) && l == lib.(artists := l.artists, artistsOf := l.artistsOf) && lib.artists <= l.artists
      && forall r :: r != mbid ==>
           (r in l.artistsOf <==> r in lib.artistsOf) && Entries(l.artistsOf, r) == Entries(lib.artistsOf, r)
  {
    if credited != [] {
      CreditsSound(lib, mbid, credited[..|credited| - 1]);
    }
  }

  lemma ReadFinds(q: Queries, lib: Library, ch: Change)
    requires Fair(q)
    ensures var r := Read(q, lib, ch);
      && ((r.PassageRecording? || r.PassageRow?) ==> r.passage in lib.catalogue.passages)
      && (!r.Absent? ==>
          && (ch.IdReview? <==> r.PassageRecording?)
          && (ch.BoundaryReview? <==> r.PassageRow?)
          && (ch.ArtistReview? <==> r.RecordingArtist?) && !ch.Unknown?)
  {
  }

  lemma MovedValid(c: Catalogue, i: int, ch: Change)
    requires Valid(c) && ch.BoundaryReview? && i in c.passages && !Breaks(c, i, ch.target)
    ensures Valid(MovedCatalogue(c, i, ch))
  {
    var c' := MovedCatalogue(c, i, ch);
    forall j, k | j in c'.passages && k in c'.passages && j != k ensures !SamePlace(c'.passages[j], c'.passages[k]) {
      assert j != i && k != i ==> !SamePlace(c.passages[j], c.passages[k]);
    }
  }

  /** A passage's cached features go exactly when the last passage with that audio leaves the span. */
  lemma MovedCovered(c: Catalogue, i: int, ch: Change)
    requires Valid(c) && Covered(c) && ch.BoundaryReview? && i in c.passages && !Breaks(c, i, ch.target)
    requires Key(c, c.passages[i]) == Extract(ch.anchor.audio, ch.anchor.span) || c.passages[i].span == ch.target.span
    ensures Valid(MovedCatalogue(c, i, ch)) && Covered(MovedCatalogue(c, i, ch))
    ensures forall e :: e in c.cache ==>
      (e in MovedCatalogue(c, i, ch).cache <==> Occupied(MovedCatalogue(c, i, ch), e))
  {
    MovedValid(c, i, ch);
    var c' := MovedCatalogue(c, i, ch);
    forall e | e in c.cache ensures e in c'.cache <==> Occupied(c', e) {
      StaysOrGoes(c, i, ch, e);
    }
  }

  lemma StaysOrGoes(c: Catalogue, i: int, ch: Change, e: Extract)
    requires Valid(c) && Covered(c) && ch.BoundaryReview? && i in c.passages && !Breaks(c, i, ch.target) && e in c.cache
    requires Key(c, c.passages[i]) == Extract(ch.anchor.audio, ch.anchor.span) || c.passages[i].span == ch.target.span
    requires Valid(MovedCatalogue(c, i, ch))
    ensures e in MovedCatalogue(c, i, ch).cache <==> Occupied(MovedCatalogue(c, i, ch), e)
  {
    var c' := MovedCatalogue(c, i, ch);
    assert c'.files == c.files;
    var j :| j in c.passages && c.files[c.passages[j].file] == e.audio && c.passages[j].span == e.span;
    if j != i {
      assert c'.passages[j] == c.passages[j];
      OccupiedAt(c', j);
    } else if ch.target.span == e.span {
      OccupiedAt(c', i);
    } else {
      assert e == Extract(ch.anchor.audio, ch.anchor.span) && ch.target.span != ch.anchor.span;
      UsedIsOccupied(c', i, e);
    }
  }

  lemma IdSound(lib: Library, i: int, ch: Change)
    requires Sound(lib) && ch.IdReview? && i in lib.catalogue.passages
    ensures Sound(ApplyId(lib, i, ch).lib)
  {
    if ch.mbid !in lib.recordings {
      CreditsSound(lib.(recordings := lib.recordings + {ch.mbid}), ch.mbid, ch.credited);
    }
  }

  lemma ArtistSound(lib: Library, ch: Change)
    requires Sound(lib) && ch.ArtistReview? && ch.recording in lib.recordings
    ensures Sound(ApplyArtist(lib, ch).lib)
  {
  }

  lemma BoundarySound(q: Queries, lib: Library, ch: Change)
    requires Fair(q) && Sound(lib) && ch.BoundaryReview? && Read(q, lib, ch).PassageRow?
    ensures Read(q, lib, ch).passage in lib.catalogue.passages
    ensures Sound(ApplyBoundary(lib, Read(q, lib, ch).passage, ch).lib)
  {
    var i := Read(q, lib, ch).passage;
    if !Breaks(lib.catalogue, i, ch.target) {
      MovedCovered(lib.catalogue, i, ch);
    }
  }

  /** Whatever becomes of a change, the schema's constraints hold after it. */
  lemma StepSound(q: Queries, lib: Library, n: int, ch: Change, cfg: Config)
    requires Fair(q) && Sound(lib)
    ensures Sound(Consider(q, lib, n, ch, cfg).0)
  {
    var r := Read(q, lib, ch);
    ReadFinds(q, lib, ch);
    if Goes(Classify(r, ch), n, cfg) {
      match ch
      case IdReview(_, _, _, _, _, _) => IdSound(lib, r.passage, ch);
      case BoundaryReview(_, _, _, _) => BoundarySound(q, lib, ch);
      case ArtistReview(_, _, _, _, _) => ArtistSound(lib, ch);
      case Unknown =>
    }
  }

  /** The changes of a list, from the first. */
  function MergeAll(q: Queries, lib: Library, cs: seq<Change>, cfg: Config): Library
    requires Fair(q)
  {
    if cs == [] then lib else Consider(q, MergeAll(q, lib, cs[..|cs| - 1], cfg), |cs|, cs[|cs| - 1], cfg).0
  }

  lemma {:induction false} RunSound(q: Queries, lib: Library, cs: seq<Change>, cfg: Config)
    requires Fair(q) && Sound(lib)
    ensures Sound(MergeAll(q, lib, cs, cfg))
  {
    if cs != [] {
      RunSound(q, lib, cs[..|cs| - 1], cfg);
      StepSound(q, MergeAll(q, lib, cs[..|cs| - 1], cfg), |cs|, cs[|cs| - 1], cfg);
    }
  }

  // ---------------------------------------------------------------- running again

  /** The step writes nothing and is not refused. */
  ghost predicate Quiet(q: Queries, lib: Library, n: int, ch: Change, cfg: Config)
    requires Fair(q)
  {
    !Goes(Classify(Read(q, lib, ch), ch), n, cfg)
  }

  lemma MovedIsThere(lib: Library, i: int, ch: Change)
    requires ch.BoundaryReview? && i in lib.catalogue.passages && !Breaks(lib.catalogue, i, ch.target)
    ensures var c' := ApplyBoundary(lib, i, ch).lib.catalogue;
      && c'.files == lib.catalogue.files && c'.passages.Keys == lib.catalogue.passages.Keys
      && c'.passages[i] == WithValues(lib.catalogue.passages[i], ch.target)
      && forall j :: j in c'.passages && j != i ==> c'.passages[j] == lib.catalogue.passages[j]
    ensures SameValues(WithValues(lib.catalogue.passages[i], ch.target), ch.target, ch.target.fade.Some?)
  {
  }

  /** Where the moved passage is found afterwards. */
  lemma FoundMoved(q: Queries, lib: Library, i: int, ch: Change, span: Span)
    requires ch.BoundaryReview? && i in lib.catalogue.passages && ApplyBoundary(lib, i, ch).Landed?
    requires lib.catalogue.passages[i].file in lib.catalogue.files
    requires lib.catalogue.files[lib.catalogue.passages[i].file] == ch.anchor.audio
    requires lib.catalogue.passages[i].kind == ch.anchor.kind
    ensures PassagesAt(ApplyBoundary(lib, i, ch).lib.catalogue, ch.anchor.audio, ch.anchor.kind, span)
         == if span == ch.target.span then PassagesAt(lib.catalogue, ch.anchor.audio, ch.anchor.kind, span) + {i}
            else PassagesAt(lib.catalogue, ch.anchor.audio, ch.anchor.kind, span) - {i}
  {
    MovedIsThere(lib, i, ch);
  }

  /** A passage a boundary change has moved is where the next reading looks, and is alone there. */
  lemma MovedFoundAgain(q: Queries, lib: Library, i: int, ch: Change)
    requires Fair(q) && Valid(lib.catalogue) && OneFileEach(lib.catalogue)
    requires ch.BoundaryReview? && i in lib.catalogue.passages && ApplyBoundary(lib, i, ch).Landed?
    requires ResolveBoundary(q, lib.catalogue, ch) == Some(i)
    ensures ResolveBoundary(q, ApplyBoundary(lib, i, ch).lib.catalogue, ch) == Some(i)
  {
    hide ApplyBoundary;
    var a, c, t := ch.anchor, lib.catalogue, ch.target.span;
    FoundMoved(q, lib, i, ch, a.span);
    FoundMoved(q, lib, i, ch, t);
    AtMostOne(c, a.audio, a.kind, a.span);
    forall j | j in PassagesAt(c, a.audio, a.kind, t) ensures j == i {
      if j != i {
        NoOther(lib, i, ch, j);
      }
    }
    assert PassagesAt(c, a.audio, a.kind, t) + {i} == {i};
    var there := PassagesAt(c, a.audio, a.kind, a.span);
    forall j | j in there ensures j == i {
      assert i in there;
    }
    if t != a.span {
      assert there - {i} == {};
    } else {
      assert there + {i} == {i};
    }
  }

  /** A boundary change that landed is in sync when read again. */
  lemma MovedIsNoop(q: Queries, lib: Library, i: int, ch: Change)
    requires Fair(q) && Valid(lib.catalogue) && OneFileEach(lib.catalogue)
    requires ch.BoundaryReview? && i != 0 && i in lib.catalogue.passages && ApplyBoundary(lib, i, ch).Landed?
    requires ResolveBoundary(q, lib.catalogue, ch) == Some(i)
    ensures Classify(Read(q, ApplyBoundary(lib, i, ch).lib, ch), ch) == Noop
  {
    MovedFoundAgain(q, lib, i, ch);
    MovedIsThere(lib, i, ch);
    hide ApplyBoundary;
    hide ResolveBoundary;
  }

  /** A change that was applied, by fast-forward or as theirs, is in sync when read again. */
  lemma LandedIsNoop(q: Queries, lib: Library, n: int, ch: Change, cfg: Config)
    requires Fair(q) && Sound(lib) && Consider(q, lib, n, ch, cfg).1 == Wrote
    ensures Classify(Read(q, Consider(q, lib, n, ch, cfg).0, ch), ch) == Noop
  {
    var r := Read(q, lib, ch);
    ReadFinds(q, lib, ch);
    match ch
    case IdReview(_, _, _, _, _, _) => IdReadsBack(q, lib, r.passage, ch, cfg);
    case BoundaryReview(_, _, _, _) => MovedIsNoop(q, lib, r.passage, ch);
    case ArtistReview(_, _, _, _, _) => OneEntry(q, ch.artist.value);
  }

  lemma OneEntry(q: Queries, k: string)
    requires Fair(q)
    ensures Heaviest(q, map[k := 1.0]) == Some(k)
  {
    var m: Weights := map[k := 1.0];
    assert k in m;
    assert q.heaviest(m) in m;
  }

  lemma IdReadsBack(q: Queries, lib: Library, i: int, ch: Change, cfg: Config)
    requires Fair(q) && ch.IdReview? && ApplyId(lib, i, ch).Landed?
    requires Read(q, lib, ch).PassageRecording? && i == Read(q, lib, ch).passage
    ensures Classify(Read(q, Cleared(ApplyId(lib, i, ch).lib, Read(q, lib, ch), ch, cfg), ch), ch) == Noop
  {
    CreditsKeepCatalogue(lib.(recordings := lib.recordings + {ch.mbid}), ch.mbid, ch.credited);
    OneEntry(q, ch.mbid);
  }

  lemma {:induction false} CreditsKeepCatalogue(lib: Library, mbid: string, credited: seq<Credit>)
    ensures var l := WithCredits(lib, mbid, credited);
      && l == lib.(artists := l.artists, artistsOf := l.artistsOf)
      && forall r :: r != mbid ==> Entries(l.artistsOf, r) == Entries(lib.artistsOf, r)
  {
    if credited != [] {
      CreditsKeepCatalogue(lib, mbid, credited[..|credited| - 1]);
    }
  }

  lemma NoOther(lib: Library, i: int, ch: Change, j: int)
    requires ch.BoundaryReview? && i in lib.catalogue.passages && ApplyBoundary(lib, i, ch).Landed?
    requires j in lib.catalogue.passages && j != i
    ensures !SamePlace(lib.catalogue.passages[j], WithValues(lib.catalogue.passages[i], ch.target))
  {
  }

  lemma AtMostOne(c: Catalogue, audio: string, kind: string, span: Span)
    requires Valid(c)
    requires OneFileEach(c)
    ensures forall i, j :: i in PassagesAt(c, audio, kind, span) && j in PassagesAt(c, audio, kind, span) ==> i == j
  {
    forall i, j | i in PassagesAt(c, audio, kind, span) && j in PassagesAt(c, audio, kind, span) ensures i == j {
      assert SamePlace(c.passages[i], c.passages[j]);
    }
  }

  // ----------------------------------------------------------------- independence

  /** The places a change names: where it looks for its passage and where it puts it. */
  function Places(ch: Change): set<Anchor>
  {
    match ch
    case IdReview(a, _, _, _, _, _) => {a}
    case BoundaryReview(a, _, t, _) => {a, a.(span := t.span)}
    case _ => {}
  }

  /** The recordings whose artists, or whose being known, a change reads or writes. */
  ghost predicate TouchesArtistsOf(ch: Change, r: string)
  {
    (ch.IdReview? && ch.mbid == r) || (ch.ArtistReview? && ch.recording == r)
  }

  /** What d writes is not what ch reads: another place, unless only its recording, and another recording's artists. */
  ghost predicate Independent(ch: Change, d: Change)
  {
    && ((ch.BoundaryReview? && d.IdReview?) || Places(ch) !! Places(d))
    && (ch.ArtistReview? ==> !TouchesArtistsOf(d, ch.recording))
  }

  lemma PlaceOfPassage(q: Queries, lib: Library, ch: Change)
    requires Fair(q) && (Read(q, lib, ch).PassageRow? || Read(q, lib, ch).PassageRecording?)
    ensures var i, c := Read(q, lib, ch).passage, lib.catalogue;
      && i in c.passages && c.passages[i].file in c.files
      && Anchor(c.files[c.passages[i].file], c.passages[i].kind, c.passages[i].span) in Places(ch)
  {
  }

  /** A passage moved among the places of one change is neither here nor there for another's. */
  lemma MovedElsewhere(lib: Library, i: int, d: Change, a: Anchor)
    requires d.BoundaryReview? && i in lib.catalogue.passages && !Breaks(lib.catalogue, i, d.target)
    requires lib.catalogue.passages[i].file in lib.catalogue.files
    requires var p := lib.catalogue.passages[i];
      && p.kind == d.anchor.kind && lib.catalogue.files[p.file] == d.anchor.audio
      && Anchor(d.anchor.audio, p.kind, p.span) in Places(d)
    requires a !in Places(d)
    ensures PassagesAt(ApplyBoundary(lib, i, d).lib.catalogue, a.audio, a.kind, a.span)
         == PassagesAt(lib.catalogue, a.audio, a.kind, a.span)
  {
    MovedIsThere(lib, i, d);
  }

  /** Two libraries hold the same where a change looks. */
  ghost predicate SeenAlike(lib: Library, lib': Library, ch: Change)
  {
    match ch
    case IdReview(a, _, _, _, _, _) =>
      && SameRowsAt(lib, lib', a, a.span)
      && (forall i :: i in PassagesAt(lib.catalogue, a.audio, a.kind, a.span) ==>
            Entries(lib'.credits, i) == Entries(lib.credits, i))
    case BoundaryReview(a, _, t, _) => SameRowsAt(lib, lib', a, a.span) && SameRowsAt(lib, lib', a, t.span)
    case ArtistReview(r, _, _, _, _) =>
      (r in lib'.recordings <==> r in lib.recordings) && Entries(lib'.artistsOf, r) == Entries(lib.artistsOf, r)
    case Unknown => true
  }

  ghost predicate SameRowsAt(lib: Library, lib': Library, a: Anchor, span: Span)
  {
    && PassagesAt(lib'.catalogue, a.audio, a.kind, span) == PassagesAt(lib.catalogue, a.audio, a.kind, span)
    && forall i :: i in PassagesAt(lib.catalogue, a.audio, a.kind, span) ==>
         lib'.catalogue.passages[i] == lib.catalogue.passages[i]
  }

  lemma ReadAlike(q: Queries, lib: Library, lib': Library, ch: Change)
    requires Fair(q) && SeenAlike(lib, lib', ch)
    ensures Read(q, lib', ch) == Read(q, lib, ch)
  {
    hide PassagesAt;
    hide Heaviest;
    hide Entries;
  }

  /** Clearing flags hides nothing a change reads. */
  lemma ClearedAlike(lib: Library, l: Library, r: Reading, d: Change, cfg: Config, ch: Change)
    requires SeenAlike(lib, l, ch)
    ensures SeenAlike(lib, Cleared(l, r, d, cfg), ch)
  {
    hide PassagesAt;
    hide Entries;
  }

  /** A change reads the same after another, independent of it, whatever became of that one. */
  lemma Undisturbed(q: Queries, lib: Library, n: int, ch: Change, d: Change, cfg: Config)
    requires Fair(q) && Independent(ch, d)
    ensures Read(q, Consider(q, lib, n, d, cfg).0, ch) == Read(q, lib, ch)
  {
    hide Independent;
    hide SeenAlike;
    hide Cleared;
    hide ApplyId;
    hide ApplyBoundary;
    hide ApplyArtist;
    hide Classify;
    hide Read;
    var r := Read(q, lib, d);
    ReadFinds(q, lib, d);
    if Goes(Classify(r, d), n, cfg) && cfg.writing {
      GoesIsThere(r, d, n, cfg);
      AppliedAlike(q, lib, ch, d);
      var l := Apply(lib, r, d).lib;
      ReadAlike(q, lib, l, ch);
      ClearedAlike(lib, l, r, d, cfg, ch);
      ReadAlike(q, lib, Cleared(l, r, d, cfg), ch);
    }
  }

  lemma GoesIsThere(r: Reading, d: Change, n: int, cfg: Config)
    requires Goes(Classify(r, d), n, cfg)
    ensures !r.Absent?
  {
  }

  lemma AppliedAlike(q: Queries, lib: Library, ch: Change, d: Change)
    requires Fair(q) && Independent(ch, d) && !Read(q, lib, d).Absent? && !d.Unknown?
    requires d.IdReview? ==> Read(q, lib, d).PassageRecording?
    requires d.BoundaryReview? ==> Read(q, lib, d).PassageRow? && Read(q, lib, d).passage in lib.catalogue.passages
    ensures SeenAlike(lib, Apply(lib, Read(q, lib, d), d).lib, ch)
  {
    hide Independent;
    hide SeenAlike;
    hide ApplyId;
    hide ApplyBoundary;
    hide ApplyArtist;
    hide Read;
    match d
    case IdReview(_, _, _, _, _, _) => UndisturbedById(q, lib, ch, d);
    case BoundaryReview(_, _, _, _) => UndisturbedByBoundary(q, lib, ch, d);
    case ArtistReview(_, _, _, _, _) => UndisturbedByArtist(lib, ch, d);
  }

  lemma UndisturbedByArtist(lib: Library, ch: Change, d: Change)
    requires Independent(ch, d) && d.ArtistReview?
    ensures SeenAlike(lib, ApplyArtist(lib, d).lib, ch)
  {
    hide PassagesAt;
  }

  /** An id change leaves the catalogue, and what it knows of every other passage and recording. */
  lemma IdKeepsRest(lib: Library, i: int, d: Change)
    requires d.IdReview?
    ensures var l := ApplyId(lib, i, d).lib;
      && l.catalogue == lib.catalogue
      && (forall j :: j != i ==> Entries(l.credits, j) == Entries(lib.credits, j))
      && (forall r :: r != d.mbid ==>
            (r in l.recordings <==> r in lib.recordings) && Entries(l.artistsOf, r) == Entries(lib.artistsOf, r))
  {
    if d.mbid !in lib.recordings {
      CreditsKeepCatalogue(lib.(recordings := lib.recordings + {d.mbid}), d.mbid, d.credited);
    }
  }

  lemma UndisturbedById(q: Queries, lib: Library, ch: Change, d: Change)
    requires Fair(q) && Independent(ch, d) && d.IdReview? && Read(q, lib, d).PassageRecording?
    ensures SeenAlike(lib, ApplyId(lib, Read(q, lib, d).passage, d).lib, ch)
  {
    hide ApplyId;
    var i := Read(q, lib, d).passage;
    PlaceOfPassage(q, lib, d);
    hide Read;
    IdKeepsRest(lib, i, d);
    if ch.IdReview? {
      var a := ch.anchor;
      assert a in Places(ch);
      assert i !in PassagesAt(lib.catalogue, a.audio, a.kind, a.span);
    }
  }

  lemma UndisturbedByBoundary(q: Queries, lib: Library, ch: Change, d: Change)
    requires Fair(q) && Independent(ch, d) && d.BoundaryReview? && Read(q, lib, d).PassageRow?
    requires Read(q, lib, d).passage in lib.catalogue.passages
    ensures SeenAlike(lib, ApplyBoundary(lib, Read(q, lib, d).passage, d).lib, ch)
  {
    var i := Read(q, lib, d).passage;
    PlaceOfPassage(q, lib, d);
    hide Read;
    hide SameRowsAt;
    hide ApplyBoundary;
    BoundaryKeepsRest(lib, i, d);
    if ch.BoundaryReview? {
      var a, t := ch.anchor, ch.target.span;
      assert a in Places(ch) && a.(span := t) in Places(ch);
      RowsElsewhere(lib, i, d, a);
      RowsElsewhere(lib, i, d, a.(span := t));
      SameRowsOf(lib, ApplyBoundary(lib, i, d).lib, a, t);
    } else if ch.IdReview? {
      assert ch.anchor in Places(ch);
      RowsElsewhere(lib, i, d, ch.anchor);
    }
  }

  lemma SameRowsOf(lib: Library, lib': Library, a: Anchor, span: Span)
    ensures SameRowsAt(lib, lib', a.(span := span), span) <==> SameRowsAt(lib, lib', a, span)
  {
  }

  lemma BoundaryKeepsRest(lib: Library, i: int, d: Change)
    requires d.BoundaryReview? && i in lib.catalogue.passages
    ensures var l := ApplyBoundary(lib, i, d).lib;
      l.credits == lib.credits && l.recordings == lib.recordings && l.artistsOf == lib.artistsOf
  {
  }

  /** The rows at a place that a boundary change does not name are those it found there. */
  lemma RowsElsewhere(lib: Library, i: int, d: Change, a: Anchor)
    requires d.BoundaryReview? && i in lib.catalogue.passages && lib.catalogue.passages[i].file in lib.catalogue.files
    requires var p := lib.catalogue.passages[i];
      && p.kind == d.anchor.kind && lib.catalogue.files[p.file] == d.anchor.audio
      && Anchor(d.anchor.audio, p.kind, p.span) in Places(d)
    requires a !in Places(d)
    ensures SameRowsAt(lib, ApplyBoundary(lib, i, d).lib, a, a.span)
  {
    hide MovedCatalogue;
    hide Breaks;
    if !Breaks(lib.catalogue, i, d.target) {
      MovedIsThere(lib, i, d);
      MovedElsewhere(lib, i, d, a);
    }
  }

  /** A change considered twice on end, and not refused, has nothing to write the second time. */
  lemma QuietAfterwards(q: Queries, lib: Library, n: int, ch: Change, cfg: Config)
    requires Fair(q) && Sound(lib) && cfg.writing && Consider(q, lib, n, ch, cfg).1 != Failed
    ensures Quiet(q, Consider(q, lib, n, ch, cfg).0, n, ch, cfg)
  {
    hide Sound;
    hide Read;
    hide Classify;
    hide Apply;
    ReadFinds(q, lib, ch);
    if Consider(q, lib, n, ch, cfg).1 == Wrote {
      LandedIsNoop(q, lib, n, ch, cfg);
    }
  }

  // --------------------------------------------------------------- refusing, keeping

  /** A change that goes is refused before it has written anything. */
  ghost predicate RefusedAtOnce(q: Queries, lib: Library, ch: Change)
    requires Fair(q)
  {
    match ch
    case IdReview(_, _, mbid, title, _, _) => mbid !in lib.recordings && (title.None? || title.value == "")
    case BoundaryReview(_, _, target, _) =>
      var r := Read(q, lib, ch);
      r.PassageRow? && r.passage in lib.catalogue.passages && Breaks(lib.catalogue, r.passage, target)
    case ArtistReview(r, _, artist, name, _) =>
      r !in lib.artistsOf && (artist.None? || (name.None? && artist.value !in lib.artists))
    case Unknown => true
  }

  /**
   A refused change leaves the library as it was exactly when it is refused before its first write: a
   recording without a title to make it with, a span that breaks the table, or an artist that cannot be
   linked over none. Otherwise what it wrote before the refusal stands.
   */
  lemma RefusedWritesNothingIff(q: Queries, lib: Library, n: int, ch: Change, cfg: Config)
    requires Fair(q) && Consider(q, lib, n, ch, cfg).1 == Failed
    ensures Consider(q, lib, n, ch, cfg).0 == lib <==> RefusedAtOnce(q, lib, ch)
  {
    var r := Read(q, lib, ch);
    ReadFinds(q, lib, ch);
    match ch
    case IdReview(_, _, _, _, _, _) => IdRefused(q, lib, r.passage, ch);
    case BoundaryReview(_, _, _, _) => BoundaryRefused(q, lib, r.passage, ch);
    case ArtistReview(_, _, _, _, _) => ArtistRefused(q, lib, ch);
  }

  lemma IdRefused(q: Queries, lib: Library, i: int, ch: Change)
    requires Fair(q) && ch.IdReview? && ApplyId(lib, i, ch).Refused?
    requires Heaviest(q, Entries(lib.credits, i)) != Some(ch.mbid)
    ensures ApplyId(lib, i, ch).lib == lib <==> ch.mbid !in lib.recordings && (ch.title.None? || ch.title.value == "")
  {
    OneEntry(q, ch.mbid);
    CreditsKeepCatalogue(lib.(recordings := lib.recordings + {ch.mbid}), ch.mbid, ch.credited);
  }

  lemma BoundaryRefused(q: Queries, lib: Library, i: int, ch: Change)
    requires ch.BoundaryReview? && i in lib.catalogue.passages && ApplyBoundary(lib, i, ch).Refused?
    requires !SameValues(lib.catalogue.passages[i], ch.target, ch.target.fade.Some?)
    ensures ApplyBoundary(lib, i, ch).lib == lib <==> Breaks(lib.catalogue, i, ch.target)
  {
    if !Breaks(lib.catalogue, i, ch.target) {
      MovedIsThere(lib, i, ch);
    }
  }

  lemma ArtistRefused(q: Queries, lib: Library, ch: Change)
    requires Fair(q) && ch.ArtistReview? && ApplyArtist(lib, ch).Refused?
    requires Heaviest(q, Entries(lib.artistsOf, ch.recording)) != ch.artist
    ensures ApplyArtist(lib, ch).lib == lib
      <==> ch.recording !in lib.artistsOf
           && (ch.artist.None? || (ch.name.None? && ch.artist.value !in lib.artists))
  {
    var l := ApplyArtist(lib, ch).lib;
    if ch.artist.Some? && (ch.name.Some? || ch.artist.value in lib.artists) {
      OneEntry(q, ch.artist.value);
      assert Entries(l.artistsOf, ch.recording) == map[ch.artist.value := 1.0];
    }
  }

  /** An artist change without a name is refused, and erases the artist it was to replace. */
  lemma RefusedArtistErases(q: Queries)
    requires Fair(q)
    ensures var held: map<string, Weights> := map["r" := map["a" := 1.0]];
      var lib := Library(Catalogue(map[], map[], {}), {"r"}, {"a"}, map[], held, {}, {}, {}, {});
      var ch := ArtistReview("r", Some("a"), Some("b"), None, true);
      Consider(q, lib, 1, ch, Config(map[], true, false)) == (lib.(artistsOf := map[]), Failed)
  {
    var held: map<string, Weights> := map["r" := map["a" := 1.0]];
    OneEntry(q, "a");
    assert Entries(held, "r") == map["a" := 1.0] && held - {"r"} == map[];
  }

  /** One passage, of one file, is alone where it is. */
  lemma AloneAt(c: Catalogue, audio: string, p: Passage, kind: string, span: Span)
    requires c.files == map[1 := audio] && c.passages == map[1 := p] && p.file == 1
    ensures PassagesAt(c, audio, kind, span) == if p.kind == kind && p.span == span then {1} else {}
  {
  }

  ghost function Cached(): Passage
  {
    Passage(1, "radio", Span(0, 10), Levels(None, None, None), 20, 20, "exponential", "exponential", "auto")
  }

  /** A library of one passage, its features cached, and its recording. */
  ghost function OneCached(): Library
  {
    Library(Catalogue(map[1 := "audio"], map[1 := Cached()], {Extract("audio", Span(0, 10))}), {"old", "new"}, {},
            map[1 := map["old" := 1.0]], map[], {}, {}, {}, {})
  }

  /** A boundary change without its time is refused, the passage moved and its cached features gone. */
  lemma UndatedMoves(q: Queries)
    requires Fair(q)
    ensures var lib, from, to := OneCached(), Values(Span(0, 10), Levels(None, None, None), None), Span(2, 8);
      var ch := BoundaryReview(Anchor("audio", "radio", from.span), from, from.(span := to), false);
      var (l, o) := Consider(q, lib, 1, ch, Config(map[], true, false));
      o == Failed && l.catalogue == Catalogue(map[1 := "audio"], map[1 := WithValues(Cached(), ch.target)], {})
  {
    var c, from, to := OneCached().catalogue, Values(Span(0, 10), Levels(None, None, None), None), Span(2, 8);
    var ch := BoundaryReview(Anchor("audio", "radio", from.span), from, from.(span := to), false);
    AloneAt(c, "audio", Cached(), "radio", from.span);
    hide PassagesAt;
    hide WithValues;
    assert Read(q, OneCached(), ch) == PassageRow(1, Cached());
    hide Read;
    assert Classify(PassageRow(1, Cached()), ch) == FastForward;
    UndatedMove(ch);
  }

  lemma UndatedMove(ch: Change)
    requires ch.BoundaryReview? && !ch.dated && ch.anchor == Anchor("audio", "radio", Span(0, 10))
    requires ch.target == Values(Span(2, 8), Levels(None, None, None), None)
    ensures var l := ApplyBoundary(OneCached(), 1, ch);
      && l.Refused?
      && l.lib.catalogue == Catalogue(map[1 := "audio"], map[1 := WithValues(Cached(), ch.target)], {})
  {
    assert map[1 := Cached()][1 := WithValues(Cached(), ch.target)] == map[1 := WithValues(Cached(), ch.target)];
  }

  /** An id change without its time is refused, the recording replaced. */
  lemma UndatedReassigns(q: Queries)
    requires Fair(q)
    ensures var lib := OneCached();
      var ch := IdReview(Anchor("audio", "radio", Span(0, 10)), Some("old"), "new", None, [], false);
      Consider(q, lib, 1, ch, Config(map[], true, false)) == (lib.(credits := map[1 := map["new" := 1.0]]), Failed)
  {
    AloneAt(OneCached().catalogue, "audio", Cached(), "radio", Span(0, 10));
    hide PassagesAt;
    OneEntry(q, "old");
    assert map[1 := map["old" := 1.0]][1 := map["new" := 1.0]] == map[1 := map["new" := 1.0]];
  }

  // ------------------------------------------------------------------- the library

  lemma CreditsStep(lib: Library, mbid: string, credited: seq<Credit>, i: nat)
    requires i < |credited|
    ensures WithCredits(lib, mbid, credited[..i + 1])
      == WithCredits(WithCredits(lib, mbid, credited[..i]), mbid, [credited[i]])
  {
    assert credited[..i + 1][..i] == credited[..i];
    assert [credited[i]][..0] == [];
  }

  /** The library file, changed statement by statement. */
  class Database {
    var lib: Library

    constructor (l: Library)
      ensures lib == l
    {
      lib := l;
    }

    method ApplyIdReview(i: int, ch: Change) returns (ok: bool)
      requires ch.IdReview?
      modifies this
      ensures lib == ApplyId(old(lib), i, ch).lib && (ok <==> ApplyId(old(lib), i, ch).Landed?)
    {
      if ch.mbid !in lib.recordings {
        if ch.title.None? || ch.title.value == "" {
          return false;
        }
        lib := lib.(recordings := lib.recordings + {ch.mbid});
        ghost var start := lib;
        for k := 0 to |ch.credited|
          invariant lib == WithCredits(start, ch.mbid, ch.credited[..k])
        {
          CreditsStep(start, ch.mbid, ch.credited, k);
          var a := ch.credited[k];
          if a.name.Some? && a.name.value != "" {
            var held := Entries(lib.artistsOf, ch.mbid);
            lib := lib.(artists := lib.artists + {a.mbid},
                        artistsOf := lib.artistsOf[ch.mbid := if a.mbid in held then held else held[a.mbid := 1.0]]);
          }
        }
        assert ch.credited[..|ch.credited|] == ch.credited;
      }
      lib := lib.(credits := lib.credits[i := map[ch.mbid := 1.0]]);
      if !ch.dated {
        return false;
      }
      lib := lib.(idStamps := lib.idStamps + {i});
      ok := true;
    }

    method ApplyBoundaryReview(i: int, ch: Change) returns (ok: bool)
      requires ch.BoundaryReview? && i in lib.catalogue.passages
      modifies this
      ensures lib == ApplyBoundary(old(lib), i, ch).lib && (ok <==> ApplyBoundary(old(lib), i, ch).Landed?)
    {
      if Breaks(lib.catalogue, i, ch.target) {
        return false;
      }
      var c := lib.catalogue;
      c := c.(passages := c.passages[i := WithValues(c.passages[i], ch.target)]);
      if ch.target.span != ch.anchor.span {
        var left := Extract(ch.anchor.audio, ch.anchor.span);
        if !StillUsed(c, i, left) {
          c := c.(cache := c.cache - {left});
        }
      }
      lib := lib.(catalogue := c);
      if !ch.dated {
        return false;
      }
      lib := lib.(boundaryStamps := lib.boundaryStamps + {i});
      ok := true;
    }

    method ApplyArtistReview(ch: Change) returns (ok: bool)
      requires ch.ArtistReview?
      modifies this
      ensures lib == ApplyArtist(old(lib), ch).lib && (ok <==> ApplyArtist(old(lib), ch).Landed?)
    {
      if ch.artist.Some? && ch.name.Some? {
        lib := lib.(artists := lib.artists + {ch.artist.value});
      }
      lib := lib.(artistsOf := lib.artistsOf - {ch.recording});
      if ch.artist.None? || ch.artist.value !in lib.artists {
        return false;
      }
      lib := lib.(artistsOf := lib.artistsOf[ch.recording := map[ch.artist.value := 1.0]]);
      if ch.name.None? || !ch.dated {
        return false;
      }
      lib := lib.(artistStamps := lib.artistStamps + {ch.recording});
      ok := true;
    }

    method ClearFlags(r: Reading, ch: Change)
      modifies this
      ensures lib == Cleared(old(lib), r, ch, Config(map[], true, true))
    {
      var i := if r.PassageRecording? || r.PassageRow? then Some(r.passage) else None;
      lib := lib.(flags := lib.flags - Subjects(i, ch));
    }

    /** One change, the n-th of the list. */
    method Apply1(q: Queries, n: int, ch: Change, cfg: Config) returns (o: Outcome)
      requires Fair(q)
      modifies this
      ensures (lib, o) == Consider(q, old(lib), n, ch, cfg)
    {
      var r := Read(q, lib, ch);
      var v := Classify(r, ch);
      if !Goes(v, n, cfg) {
        return Left(v);
      }
      if !cfg.writing {
        return Rehearsed;
      }
      ReadFinds(q, lib, ch);
      var ok;
      match ch {
        case IdReview(_, _, _, _, _, _) => ok := ApplyIdReview(r.passage, ch);
        case BoundaryReview(_, _, _, _) => ok := ApplyBoundaryReview(r.passage, ch);
        case ArtistReview(_, _, _, _, _) => ok := ApplyArtistReview(ch);
      }
      if !ok {
        return Failed;
      }
      if cfg.clearFlags {
        ClearFlags(r, ch);
      }
      o := Wrote;
    }

    /** The whole list, and what became of each change. */
    method Merge(q: Queries, cs: seq<Change>, cfg: Config) returns (outcomes: seq<Outcome>)
      requires Fair(q)
      modifies this
      ensures lib == MergeAll(q, old(lib), cs, cfg)
      ensures |outcomes| == |cs|
      ensures forall n {:trigger outcomes[n]} :: 0 <= n < |cs| ==>
        outcomes[n] == Consider(q, MergeAll(q, old(lib), cs[..n], cfg), n + 1, cs[n], cfg).1
    {
      outcomes := [];
      for k := 0 to |cs|
        invariant |outcomes| == k && lib == MergeAll(q, old(lib), cs[..k], cfg)
        invariant forall n {:trigger outcomes[n]} :: 0 <= n < k ==>
          outcomes[n] == Consider(q, MergeAll(q, old(lib), cs[..n], cfg), n + 1, cs[n], cfg).1
      {
        assert cs[..k + 1][..k] == cs[..k];
        var o := Apply1(q, k + 1, cs[k], cfg);
        outcomes := outcomes + [o];
      }
      assert cs[..|cs|] == cs;
    }
  }
}
