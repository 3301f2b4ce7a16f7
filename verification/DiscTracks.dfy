/**
 The table of contents that tools/cd_toc.py ends with, field by field, said of the lines of a CUE sheet or of the rows
 of a rip log.
 */
module DiscTracks {
  import opened Decimal
  import opened DiscToc
  import opened Optional

  // -------------------------------------------------------------- made-up CD-TEXT

  /** The name that a ripper makes up for track n: "Track" and its number, of two digits at least. */
  ghost predicate IsMadeUp(text: string, n: nat)
  {
    && |text| >= 7 && text[..5] == "Track" && Reading(text[5..]) == n
    && (forall i :: 5 <= i < |text| ==> '0' <= text[i] <= '9') && (|text| > 7 ==> text[5] != '0')
  }

  lemma ReadingAfterZero(s: string)
    requires |s| == 1
    ensures Reading("0" + s) == Reading(s)
  {
    assert ("0" + s)[..1] == "0" && "0"[..0] == "" && s[..0] == "";
    assert Reading("0") == 0;
  }

  /** The title that is dropped is a made-up one. */
  lemma MadeUpIs(n: nat)
    ensures IsMadeUp(MadeUpTitle(n), n)
  {
    DigitsRead(n);
    var text := MadeUpTitle(n);
    if n < 10 {
      ReadingAfterZero(Digits(n));
      assert text == "Track" + ("0" + Digits(n));
      assert text[5..] == "0" + Digits(n);
    } else {
      assert text == "Track" + Digits(n);
      assert text[5..] == Digits(n);
    }
  }

  /** The disc has no CD-TEXT: both its title and its performer are what stands for none. */
  ghost predicate NoText(ls: seq<Line>)
  {
    && LastOf(Header(ls), TitleIn()) == Some("Unknown Title")
    && LastOf(Header(ls), PerformerIn()) == Some("Unknown Artist")
  }

  /** What is kept of a name that a line gives, where this one stands for none. */
  ghost predicate Kept(o: Option<string>, given: Option<string>, none: string)
  {
    if given == Some(none) then o.None? else o == given
  }

  // ------------------------------------------------------------------ one track

  /** The lines of the k-th track after its TRACK line. */
  ghost function Own(ls: seq<Line>, k: nat): seq<Line>
    requires k < |TrackLines(ls)|
  {
    ls[TrackLines(ls)[k] + 1..EndOf(ls, k)]
  }

  /** The file the k-th track's audio is in: the one last named before the line that starts it. */
  ghost function FileFor(ls: seq<Line>, k: nat): Option<string>
    requires k < |TrackLines(ls)|
  {
    LastOf(ls[..StartLine(ls, TrackLines(ls)[k], EndOf(ls, k))], FileIn())
  }

  /** Number, code, file and names, as the k-th track's own lines give them; a made-up name goes with the disc's. */
  ghost predicate Named(ls: seq<Line>, k: nat, t: Track)
    requires k < |TrackLines(ls)|
  {
    && t.number == ls[TrackLines(ls)[k]].number && t.isrc == LastOf(Own(ls, k), IsrcIn()) && t.file == FileFor(ls, k)
    && if NoText(ls) then
         && Kept(t.title, LastOf(Own(ls, k), TitleIn()), MadeUpTitle(t.number))
         && Kept(t.performer, LastOf(Own(ls, k), PerformerIn()), "Unknown Artist")
       else
         t.title == LastOf(Own(ls, k), TitleIn()) && t.performer == LastOf(Own(ls, k), PerformerIn())
  }

  /** Start, pregap and end: the next track of the same file ends it, the whole audio ends the last one. */
  ghost predicate Placed(ls: seq<Line>, k: nat, total: int, t: Track)
    requires k < |TrackLines(ls)|
  {
    && t.start == SheetStart(ls, k) && t.startSector == MsToSectors(SheetStart(ls, k)) && t.endSector == 0
    && t.pregap == (match (GivenFor(ls, k, 0), GivenFor(ls, k, 1))
                    case (Some(a), Some(b)) => if a <= b then Some(b - a) else None
                    case _ => None)
    && t.end == if k == |TrackLines(ls)| - 1 then total
                else if FileFor(ls, k + 1) == FileFor(ls, k) then SheetBegin(ls, k + 1) else 0
  }

  lemma DescribedHere(ls: seq<Line>, ts: seq<Track>, k: nat)
    requires EachDescribed(ls, ts) && k < |ts|
    ensures k < |TrackLines(ls)| && Describes(ls, TrackLines(ls)[k], EndOf(ls, k), ts[k])
  {
  }

  lemma IndexHere(ls: seq<Line>, ts: seq<Track>, k: nat, i: nat)
    requires EachDescribed(ls, ts) && k < |ts|
    ensures k < |TrackLines(ls)|
    ensures GivenFor(ls, k, i) == if i in ts[k].indexes then Some(ts[k].indexes[i]) else None
  {
    hide LastOf;
    hide TrackLines;
    hide StartLine;
    DescribedHere(ls, ts, k);
    assert PositionsRead(ls[TrackLines(ls)[k] + 1..EndOf(ls, k)], ts[k].indexes);
  }

  /** A track that a sheet's lines describe, cleaned, named. */
  lemma CleanedNamed(ls: seq<Line>, ts: seq<Track>, k: nat)
    requires EachDescribed(ls, ts) && k < |ts|
    ensures k < |TrackLines(ls)| && Named(ls, k, WithoutMadeUp(ts[k], NoText(ls)))
  {
    hide LastOf;
    hide TrackLines;
    hide StartLine;
    hide MadeUpTitle;
    hide NoText;
    hide PositionsRead;
    DescribedHere(ls, ts, k);
  }

  /** What bounding and finishing leave of a track. */
  lemma FinishedTrack(toc: Toc, ts: seq<Track>, total: int, k: nat)
    requires k < |ts| && toc.tracks == Bound(ts)
    ensures var t := Finalized(toc, total).tracks[k];
      && t.number == ts[k].number && t.title == ts[k].title && t.performer == ts[k].performer
      && t.isrc == ts[k].isrc && t.file == ts[k].file
      && t.start == StartOf(ts[k]) && t.startSector == MsToSectors(StartOf(ts[k])) && t.endSector == ts[k].endSector
      && t.pregap == PregapOf(ts[k])
      && t.end == if k == |ts| - 1 then total
                  else if ts[k + 1].file == ts[k].file then BeginOf(ts[k + 1]) else ts[k].end
  {
    hide StartOf;
    hide BeginOf;
    hide PregapOf;
    hide MsToSectors;
    var b := Bounded(ts, k);
    assert toc.tracks[k] == b;
  }

  lemma NamedAlike(ls: seq<Line>, k: nat, t: Track, t': Track)
    requires k < |TrackLines(ls)| && Named(ls, k, t)
    requires t'.number == t.number && t'.title == t.title && t'.performer == t.performer && t'.isrc == t.isrc
    requires t'.file == t.file
    ensures Named(ls, k, t')
  {
    hide LastOf;
    hide TrackLines;
    hide StartLine;
    hide MadeUpTitle;
    hide NoText;
  }

  /** A track the reader has closed is not ended yet. */
  ghost predicate Open(ts: seq<Track>)
  {
    forall k :: 0 <= k < |ts| ==> ts[k].end == 0 && ts[k].endSector == 0
  }

  lemma {:induction false} ScanOpen(ls: seq<Line>)
    ensures Open(Scan(ls).done)
  {
    hide FramesToMs;
    if ls != [] {
      ScanOpen(ls[..|ls| - 1]);
      FeedCloses(Scan(ls[..|ls| - 1]), ls[|ls| - 1]);
      hide Feed;
    }
  }

  lemma FlushOpen(ls: seq<Line>)
    ensures Open(Flush(Scan(ls)).done)
  {
    ScanOpen(ls);
    hide Scan;
  }

  lemma NoneIs(ls: seq<Line>)
    ensures var r := Flush(Scan(ls)); NoText(ls) <==> r.title == Some(NO_TITLE) && r.performer == Some(NO_PERFORMER)
  {
    ScanReads(ls);
    hide Scan;
    hide LastOf;
    hide Header;
    hide TracksRead;
  }

  /** Each track of a sheet, read and finished, is named and placed as its own lines say. */
  lemma SheetTracks(ls: seq<Line>, total: int, k: nat)
    requires k < |TrackLines(ls)|
    ensures |Finalized(ParseCue(ls), total).tracks| == |TrackLines(ls)|
    ensures Named(ls, k, Finalized(ParseCue(ls), total).tracks[k])
    ensures Placed(ls, k, total, Finalized(ParseCue(ls), total).tracks[k])
  {
    hide LastOf;
    hide TrackLines;
    hide EachDescribed;
    hide Named;
    hide NoText;
    hide Scan;
    hide StartLine;
    hide Flush;
    var done := Flush(Scan(ls)).done;
    SheetRead(ls);
    NoneIs(ls);
    FlushOpen(ls);
    var ts := Cleaned(done, NoText(ls));
    var toc := ParseCue(ls);
    assert toc.tracks == Bound(ts);
    CleanedNamed(ls, done, k);
    FinishedTrack(toc, ts, total, k);
    NamedAlike(ls, k, ts[k], Finalized(toc, total).tracks[k]);
    hide ParseCue;
    TrackPlaced(ls, done, ts, k, total, Finalized(toc, total).tracks[k]);
  }

  lemma FilesHere(ls: seq<Line>, ts: seq<Track>, k: nat)
    requires EachDescribed(ls, ts) && k < |ts|
    ensures k < |TrackLines(ls)| && ts[k].file == FileFor(ls, k)
  {
    hide LastOf;
    hide TrackLines;
    hide StartLine;
    hide PositionsRead;
    DescribedHere(ls, ts, k);
  }

  lemma PregapHere(ls: seq<Line>, done: seq<Track>, k: nat)
    requires EachDescribed(ls, done) && k < |done|
    ensures k < |TrackLines(ls)|
    ensures PregapOf(done[k]) == match (GivenFor(ls, k, 0), GivenFor(ls, k, 1))
                                 case (Some(a), Some(b)) => if a <= b then Some(b - a) else None
                                 case _ => None
  {
    hide TrackLines;
    hide EachDescribed;
    hide GivenFor;
    IndexHere(ls, done, k, 0);
    IndexHere(ls, done, k, 1);
  }

  lemma TrackPlaced(ls: seq<Line>, done: seq<Track>, ts: seq<Track>, k: nat, total: int, t: Track)
    requires EachDescribed(ls, done) && |done| == |TrackLines(ls)| && k < |done| && Open(done)
    requires ts == Cleaned(done, NoText(ls))
    requires t.start == StartOf(ts[k]) && t.startSector == MsToSectors(StartOf(ts[k])) && t.pregap == PregapOf(ts[k])
    requires t.endSector == ts[k].endSector
    requires t.end == if k == |ts| - 1 then total
                      else if ts[k + 1].file == ts[k].file then BeginOf(ts[k + 1]) else ts[k].end
    ensures Placed(ls, k, total, t)
  {
    hide LastOf;
    hide TrackLines;
    hide EachDescribed;
    hide NoText;
    hide SheetStart;
    hide SheetBegin;
    hide GivenFor;
    hide FileFor;
    hide MsToSectors;
    DescribedPositions(ls, done, k);
    PregapHere(ls, done, k);
    FilesHere(ls, done, k);
    if k + 1 < |done| {
      DescribedPositions(ls, done, k + 1);
      FilesHere(ls, done, k + 1);
    }
  }

  // A track whose INDEX 00 is timed in one file and whose INDEX 01 in the next.

  ghost function AcrossFiles(): seq<Line>
  {
    [FileLine("a"), TrackLine(1), Index(0, 0, 0, 0), FileLine("b"), Index(1, 0, 2, 0)]
  }

  lemma OneTrackLine()
    ensures TrackLines(AcrossFiles()) == [1] && EndOf(AcrossFiles(), 0) == 5
  {
    var ls := AcrossFiles();
    assert ls[..4][..3] == ls[..3] && ls[..3][..2] == ls[..2] && ls[..2][..1] == ls[..1] && ls[..1][..0] == [];
    assert TrackLines(ls[..1]) == [];
    assert TrackLines(ls[..2]) == [1];
    assert TrackLines(ls[..3]) == [1];
    assert TrackLines(ls[..4]) == [1];
  }

  lemma OwnPositions(own: seq<Line>)
    requires own == [Index(0, 0, 0, 0), FileLine("b"), Index(1, 0, 2, 0)]
    ensures LastOf(own, PositionIn(0)) == Some(FramesToMs(0, 0, 0))
    ensures LastOf(own, PositionIn(1)) == Some(FramesToMs(0, 2, 0))
  {
    hide FramesToMs;
    assert own[..2][..1] == own[..1];
    assert LastOf(own[..1], PositionIn(0)) == Some(FramesToMs(0, 0, 0));
    assert LastOf(own[..2], PositionIn(0)) == Some(FramesToMs(0, 0, 0));
  }

  lemma AcrossPositions()
    ensures 0 < |TrackLines(AcrossFiles())|
    ensures GivenFor(AcrossFiles(), 0, 0) == Some(0) && GivenFor(AcrossFiles(), 0, 1) == Some(2000)
  {
    OneTrackLine();
    WholeSeconds();
    var own := AcrossFiles()[2..5];
    OwnPositions(own);
    hide FramesToMs;
    hide LastOf;
    hide TrackLines;
  }

  lemma WholeSeconds()
    ensures FramesToMs(0, 0, 0) == 0 && FramesToMs(0, 2, 0) == 2000
  {
  }

  /** A pregap is measured from one file's time to another's. */
  lemma PregapAcrossFiles(total: int)
    ensures var ts := Finalized(ParseCue(AcrossFiles()), total).tracks; |ts| == 1 && ts[0].pregap == Some(2000)
  {
    hide TrackLines;
    hide LastOf;
    hide ParseCue;
    hide GivenFor;
    hide Named;
    OneTrackLine();
    AcrossPositions();
    SheetTracks(AcrossFiles(), total, 0);
  }

  // -------------------------------------------------------------------- the disc

  /** The first file the sheet names. */
  ghost predicate FirstFile(ls: seq<Line>, o: Option<string>)
  {
    match o
    case None => forall i :: 0 <= i < |ls| ==> !ls[i].FileLine?
    case Some(name) =>
      exists i :: 0 <= i < |ls| && ls[i].FileLine? && ls[i].name == name && forall j :: 0 <= j < i ==> !ls[j].FileLine?
  }

  lemma {:induction false} FirstFileRead(ls: seq<Line>)
    ensures FirstFile(ls, Scan(ls).dataFile)
  {
    hide FramesToMs;
    if ls != [] {
      var init, l := ls[..|ls| - 1], ls[|ls| - 1];
      FirstFileRead(init);
      FileKept(Scan(init), l);
      hide Scan;
      hide Feed;
    }
  }

  lemma FileKept(r: Reader, l: Line)
    ensures Feed(r, l).dataFile
         == if r.dataFile.None? && l.FileLine? then Some(l.name) else r.dataFile
  {
  }

  /** The disc's own names, its barcode, its first file and its leadout. */
  lemma SheetDisc(ls: seq<Line>, total: int)
    ensures var toc := Finalized(ParseCue(ls), total);
      && Kept(toc.title, LastOf(Header(ls), TitleIn()), "Unknown Title")
      && Kept(toc.performer, LastOf(Header(ls), PerformerIn()), "Unknown Artist")
      && toc.barcode == LastOf(Header(ls), CodeIn()) && FirstFile(ls, toc.dataFile)
      && toc.leadout == MsToSectors(total)
  {
    ScanReads(ls);
    FirstFileRead(ls);
    hide Scan;
    hide LastOf;
    hide Header;
    hide TracksRead;
    hide FirstFile;
    hide MsToSectors;
  }

  // ------------------------------------------------------------------------- logs

  /** A log's tracks are its rows; where the rows follow on one another, the tracks tile the disc up to its leadout. */
  lemma LogTracksAre(rows: seq<Row>)
    requires rows != []
    ensures var toc := TocFromLog(rows).value;
      && |toc.tracks| == |rows| && toc.leadout == rows[|rows| - 1].last + 1
      && (forall k :: 0 <= k < |rows| ==>
            && toc.tracks[k].number == rows[k].number
            && toc.tracks[k].startSector == rows[k].first && toc.tracks[k].endSector == rows[k].last
            && MsToSectors(toc.tracks[k].start) == rows[k].first && MsToSectors(toc.tracks[k].end) == rows[k].last + 1)
      && (forall j, k :: 0 <= j && k == j + 1 < |rows| && rows[k].first == rows[j].last + 1 ==>
            toc.tracks[j].end == toc.tracks[k].start)
  {
    hide SectorsToMs;
    hide MsToSectors;
    forall k | 0 <= k < |rows|
      ensures MsToSectors(SectorsToMs(rows[k].first)) == rows[k].first
      ensures MsToSectors(SectorsToMs(rows[k].last + 1)) == rows[k].last + 1
    {
      SectorRoundTrip(rows[k].first);
      SectorRoundTrip(rows[k].last + 1);
    }
  }
}
