/**
 A disc's table of contents, from a CUE sheet or from a rip log: tools/cd_toc.py.

 Lines are taken already recognised. `Scan` is the reader's one pass, with the variables it carries from line
 to line; what a track ought to be is said of the lines themselves, between its TRACK line and the next.
 */
module DiscToc {
  import opened Decimal
  import opened Optional
  import opened Rounding

  // ------------------------------------------------------------------- positions

  /** 75 frames a second, in whole milliseconds. */
  function FramesToMs(m: nat, s: nat, f: nat): int
  {
    RoundHalfEven((m * 60 + s) as real * 1000.0 + f as real * 1000.0 / 75.0)
  }

  function FramesToSectors(m: nat, s: nat, f: nat): nat
  {
    (m * 60 + s) * 75 + f
  }

  function MsToSectors(ms: int): int
  {
    RoundHalfEven(ms as real * 75.0 / 1000.0)
  }

  function SectorsToMs(sector: int): int
  {
    RoundHalfEven(sector as real * 1000.0 / 75.0)
  }

  /** A sheet's position and a log's, of one sector, are the same millisecond. */
  lemma SheetAndLogAgree(m: nat, s: nat, f: nat)
    ensures FramesToMs(m, s, f) == SectorsToMs(FramesToSectors(m, s, f))
  {
    var a := m * 60 + s;
    assert (a * 75 + f) as real == a as real * 75.0 + f as real;
    assert (a as real * 75.0 + f as real) * 1000.0 / 75.0 == a as real * 1000.0 + f as real * 1000.0 / 75.0;
  }

  /** A sector's millisecond leads back to the sector. */
  lemma SectorRoundTrip(n: int)
    ensures MsToSectors(SectorsToMs(n)) == n
  {
    var x := n as real * 1000.0 / 75.0;
    var ms := RoundHalfEven(x);
    assert ms as real - 0.5 <= x <= ms as real + 0.5;
    assert x * 75.0 / 1000.0 == n as real;
    RoundsToNear(ms as real * 75.0 / 1000.0, n);
  }

  lemma FrameRoundTrip(m: nat, s: nat, f: nat)
    ensures MsToSectors(FramesToMs(m, s, f)) == FramesToSectors(m, s, f)
  {
    SheetAndLogAgree(m, s, f);
    SectorRoundTrip(FramesToSectors(m, s, f));
  }

  // ----------------------------------------------------------------------- lines

  datatype Line =
    | FileLine(name: string)
    | Catalog(code: string)
    | TrackLine(number: nat)
    | Isrc(code: string)
    | Index(number: nat, minutes: nat, seconds: nat, frames: nat)
    | Title(text: string)
    | Performer(text: string)
    | Other

  type Indexes = map<nat, int>

  datatype Track = Track(number: nat, start: int, end: int, startSector: int, endSector: int, pregap: Option<int>,
                         indexes: Indexes, title: Option<string>, performer: Option<string>, file: Option<string>,
                         isrc: Option<string>)

  datatype Toc = Toc(tracks: seq<Track>, leadout: int, title: Option<string>, performer: Option<string>,
                     dataFile: Option<string>, barcode: Option<string>)

  /** What the reader carries from line to line. */
  datatype Reader = Reader(
    title: Option<string>, performer: Option<string>, dataFile: Option<string>, barcode: Option<string>,
    file: Option<string>, done: seq<Track>, open: Option<nat>, openTitle: Option<string>, openPerformer: Option<string>,
    openIsrc: Option<string>, openFile: Option<string>, openIndexes: Indexes, seenTrack: bool)

  const FRESH := Reader(None, None, None, None, None, [], None, None, None, None, None, map[], false)

  function Bare(number: nat, indexes: Indexes, title: Option<string>, performer: Option<string>, file: Option<string>,
                isrc: Option<string>): Track
  {
    Track(number, 0, 0, 0, 0, None, indexes, title, performer, file, isrc)
  }

  /** The track being read, closed. */
  function Flush(r: Reader): Reader
  {
    var done := if r.open.None? then r.done
                else r.done + [Bare(r.open.value, r.openIndexes, r.openTitle, r.openPerformer, r.openFile, r.openIsrc)];
    r.(done := done, open := None, openTitle := None, openPerformer := None, openIsrc := None, openFile := None,
       openIndexes := map[])
  }

  function Feed(r: Reader, l: Line): Reader
  {
    match l
    case FileLine(name) => r.(file := Some(name), dataFile := if r.dataFile.None? then Some(name) else r.dataFile)
    case Catalog(code) => if r.seenTrack then r else r.(barcode := Some(code))
    case TrackLine(n) => Flush(r).(open := Some(n), openFile := r.file, seenTrack := true)
    case Isrc(code) => if r.open.Some? then r.(openIsrc := Some(code)) else r
    case Index(i, m, s, f) =>
      if r.open.None? then r
      else
        var r1 := r.(openIndexes := r.openIndexes[i := FramesToMs(m, s, f)]);
        if i == 1 then r1.(openFile := r.file) else r1
    case Title(text) =>
      if r.open.Some? then r.(openTitle := Some(text))
      else if !r.seenTrack then r.(title := Some(text))
      else r
    case Performer(text) =>
      if r.open.Some? then r.(openPerformer := Some(text))
      else if !r.seenTrack then r.(performer := Some(text))
      else r
    case Other => r
  }

  function Scan(ls: seq<Line>): Reader
  {
    if ls == [] then FRESH else Feed(Scan(ls[..|ls| - 1]), ls[|ls| - 1])
  }

  // --------------------------------------------------------- what a track ought to be

  /** The value that the last line of some lines gives, where a line gives one. */
  function LastOf<T>(ls: seq<Line>, gives: Line -> Option<T>): Option<T>
  {
    if ls == [] then None
    else
      match gives(ls[|ls| - 1])
      case Some(x) => Some(x)
      case None => LastOf(ls[..|ls| - 1], gives)
  }

  function TitleIn(): Line -> Option<string>
  {
    (l: Line) => if l.Title? then Some(l.text) else None
  }

  function PerformerIn(): Line -> Option<string>
  {
    (l: Line) => if l.Performer? then Some(l.text) else None
  }

  function IsrcIn(): Line -> Option<string>
  {
    (l: Line) => if l.Isrc? then Some(l.code) else None
  }

  function FileIn(): Line -> Option<string>
  {
    (l: Line) => if l.FileLine? then Some(l.name) else None
  }

  /** The last position given for an index number. */
  function PositionIn(i: nat): Line -> Option<int>
  {
    (l: Line) => if l.Index? && l.number == i then Some(FramesToMs(l.minutes, l.seconds, l.frames)) else None
  }

  /** The number of the last line, after the first `from`, that gives the start of the audio, or of the TRACK line. */
  function StartLine(ls: seq<Line>, from: nat, to: nat): (i: nat)
    requires from < to <= |ls|
    ensures from <= i < to
  {
    if to == from + 1 then from
    else if ls[to - 1].Index? && ls[to - 1].number == 1 then to - 1
    else StartLine(ls, from, to - 1)
  }

  /**
   The track that lines from..to describe, the first of them its TRACK line: each of its fields is what the
   last line between says, and its file the one named before the line that starts its audio.
   */
  ghost predicate Describes(ls: seq<Line>, from: nat, to: nat, t: Track)
    requires from < to <= |ls|
  {
    var own := ls[from + 1..to];
    && ls[from].TrackLine? && t.number == ls[from].number
    && t.title == LastOf(own, TitleIn()) && t.performer == LastOf(own, PerformerIn()) && t.isrc == LastOf(own, IsrcIn())
    && t.file == LastOf(ls[..StartLine(ls, from, to)], FileIn())
    && PositionsRead(own, t.indexes)
  }

  /** Each index number has the last position given for it. */
  ghost predicate PositionsRead(own: seq<Line>, indexes: Indexes)
  {
    forall i :: (if i in indexes then Some(indexes[i]) else None) == LastOf(own, PositionIn(i))
  }

  lemma PositionsReadOn(own: seq<Line>, l: Line, indexes: Indexes)
    requires PositionsRead(own, indexes)
    ensures PositionsRead(own + [l], if l.Index?
                                     then indexes[l.number := FramesToMs(l.minutes, l.seconds, l.frames)]
                                     else indexes)
  {
    hide FramesToMs;
    forall i
      ensures LastOf(own + [l], PositionIn(i))
           == if PositionIn(i)(l).Some? then PositionIn(i)(l) else LastOf(own, PositionIn(i))
    {
      LastOfLonger(own, l, PositionIn(i));
    }
    hide LastOf;
  }

  /** Where the TRACK lines are. */
  function TrackLines(ls: seq<Line>): (at: seq<nat>)
    ensures forall k :: 0 <= k < |at| ==> at[k] < |ls| && ls[at[k]].TrackLine?
    ensures forall j, k :: 0 <= j < k < |at| ==> at[j] < at[k]
  {
    if ls == [] then []
    else
      var n := |ls| - 1;
      TrackLines(ls[..n]) + if ls[n].TrackLine? then [n] else []
  }

  lemma {:induction false} AllTrackLines(ls: seq<Line>, i: nat)
    requires i < |ls| && ls[i].TrackLine?
    ensures i in TrackLines(ls)
  {
    if i < |ls| - 1 {
      AllTrackLines(ls[..|ls| - 1], i);
    }
  }

  /** Where the k-th track's lines end. */
  function EndOf(ls: seq<Line>, k: nat): (e: nat)
    requires k < |TrackLines(ls)|
    ensures TrackLines(ls)[k] < e <= |ls|
  {
    if k + 1 < |TrackLines(ls)| then TrackLines(ls)[k + 1] else |ls|
  }

  /** The track the reader has open. */
  function OpenTrack(r: Reader): Track
    requires r.open.Some?
  {
    Bare(r.open.value, r.openIndexes, r.openTitle, r.openPerformer, r.openFile, r.openIsrc)
  }

  /** The lines before the first track. */
  function Header(ls: seq<Line>): seq<Line>
  {
    if TrackLines(ls) == [] then ls else ls[..TrackLines(ls)[0]]
  }

  function CodeIn(): Line -> Option<string>
  {
    (l: Line) => if l.Catalog? then Some(l.code) else None
  }

  ghost predicate TracksRead(ls: seq<Line>, r: Reader)
  {
    var at := TrackLines(ls);
    && (r.seenTrack <==> at != []) && (r.open.Some? <==> at != [])
    && |r.done| == (if at == [] then 0 else |at| - 1)
    && EachDescribed(ls, r.done)
    && (at != [] ==> Describes(ls, at[|at| - 1], |ls|, OpenTrack(r)))
  }

  ghost predicate HeaderRead(ls: seq<Line>, r: Reader)
  {
    && r.file == LastOf(ls, FileIn())
    && r.title == LastOf(Header(ls), TitleIn()) && r.performer == LastOf(Header(ls), PerformerIn())
    && r.barcode == LastOf(Header(ls), CodeIn())
  }

  lemma {:induction false} StartLinePrefix(ls: seq<Line>, l: Line, from: nat, to: nat)
    requires from < to <= |ls|
    ensures StartLine(ls + [l], from, to) == StartLine(ls, from, to)
  {
    if to > from + 1 {
      StartLinePrefix(ls, l, from, to - 1);
    }
  }

  /** What lines say of a track, more lines after them leave. */
  lemma DescribesLonger(ls: seq<Line>, l: Line, from: nat, to: nat, t: Track)
    requires from < to <= |ls| && Describes(ls, from, to, t)
    ensures Describes(ls + [l], from, to, t)
  {
    StartLinePrefix(ls, l, from, to);
    assert (ls + [l])[from + 1..to] == ls[from + 1..to];
    assert (ls + [l])[..StartLine(ls, from, to)] == ls[..StartLine(ls, from, to)];
  }

  lemma TrackLinesLonger(ls: seq<Line>, l: Line)
    ensures TrackLines(ls + [l]) == TrackLines(ls) + if l.TrackLine? then [|ls|] else []
  {
    assert (ls + [l])[..|ls|] == ls;
  }

  lemma LastOfLonger<T>(ls: seq<Line>, l: Line, gives: Line -> Option<T>)
    ensures LastOf(ls + [l], gives) == if gives(l).Some? then gives(l) else LastOf(ls, gives)
  {
    assert (ls + [l])[..|ls|] == ls;
  }

  /** A line that is no TRACK line adds to the open track. */
  lemma OpenLonger(ls: seq<Line>, l: Line, from: nat, r: Reader)
    requires from < |ls| && r.open.Some? && !l.TrackLine? && Describes(ls, from, |ls|, OpenTrack(r))
    requires r.file == LastOf(ls, FileIn())
    ensures Feed(r, l).open.Some? && Describes(ls + [l], from, |ls| + 1, OpenTrack(Feed(r, l)))
  {
    hide LastOf;
    hide StartLine;
    hide PositionsRead;
    hide FramesToMs;
    var all, own := ls + [l], ls[from + 1..];
    assert all[from + 1..|ls| + 1] == own + [l] && ls[from + 1..|ls|] == own;
    LastOfLonger(own, l, TitleIn());
    LastOfLonger(own, l, PerformerIn());
    LastOfLonger(own, l, IsrcIn());
    PositionsReadOn(own, l, r.openIndexes);
    OpenFile(ls, l, from);
  }

  /** The file an open track is in moves on to the current one where its audio starts. */
  lemma OpenFile(ls: seq<Line>, l: Line, from: nat)
    requires from < |ls|
    ensures LastOf((ls + [l])[..StartLine(ls + [l], from, |ls| + 1)], FileIn())
         == if l.Index? && l.number == 1 then LastOf(ls, FileIn())
            else LastOf(ls[..StartLine(ls, from, |ls|)], FileIn())
  {
    StartLinePrefix(ls, l, from, |ls|);
    var all, at := ls + [l], StartLine(ls, from, |ls|);
    assert all[..at] == ls[..at] && all[..|ls|] == ls;
  }

  /** A TRACK line opens a track of its own. */
  lemma OpenFresh(ls: seq<Line>, r: Reader, n: nat)
    requires r.file == LastOf(ls, FileIn())
    ensures Describes(ls + [TrackLine(n)], |ls|, |ls| + 1, OpenTrack(Feed(r, TrackLine(n))))
  {
    var all := ls + [TrackLine(n)];
    assert all[|ls| + 1..|ls| + 1] == [] && all[..|ls|] == ls;
  }

  ghost predicate EachDescribed(ls: seq<Line>, ts: seq<Track>)
  {
    |ts| <= |TrackLines(ls)| && forall k :: 0 <= k < |ts| ==> Describes(ls, TrackLines(ls)[k], EndOf(ls, k), ts[k])
  }

  lemma EachDescribedLonger(ls: seq<Line>, l: Line, ts: seq<Track>)
    requires EachDescribed(ls, ts) && (|ts| < |TrackLines(ls)| || ts == [])
    ensures EachDescribed(ls + [l], ts)
  {
    hide Describes;
    hide TrackLines;
    TrackLinesLonger(ls, l);
    forall k | 0 <= k < |ts| ensures Describes(ls + [l], TrackLines(ls + [l])[k], EndOf(ls + [l], k), ts[k]) {
      DescribesLonger(ls, l, TrackLines(ls)[k], EndOf(ls, k), ts[k]);
    }
  }

  lemma OneMoreDescribed(ls: seq<Line>, n: nat, ts: seq<Track>, t: Track)
    requires EachDescribed(ls, ts) && |ts| + 1 == |TrackLines(ls)| && Describes(ls, TrackLines(ls)[|ts|], |ls|, t)
    ensures EachDescribed(ls + [TrackLine(n)], ts + [t])
  {
    hide Describes;
    hide TrackLines;
    var l := TrackLine(n);
    EachDescribedLonger(ls, l, ts);
    TrackLinesLonger(ls, l);
    DescribesLonger(ls, l, TrackLines(ls)[|ts|], |ls|, t);
  }

  /** A TRACK line closes the open track and opens another; no other line does. */
  lemma FeedCloses(r: Reader, l: Line)
    ensures var r' := Feed(r, l);
      && r'.seenTrack == (r.seenTrack || l.TrackLine?) && (r'.open.Some? <==> r.open.Some? || l.TrackLine?)
      && r'.done == (if l.TrackLine? && r.open.Some? then r.done + [OpenTrack(r)] else r.done)
  {
  }

  lemma TracksReadOn(ls: seq<Line>, r: Reader, l: Line)
    requires TracksRead(ls, r) && r.file == LastOf(ls, FileIn())
    ensures TracksRead(ls + [l], Feed(r, l))
  {
    hide Describes;
    hide TrackLines;
    hide LastOf;
    hide EachDescribed;
    hide Feed;
    var at := TrackLines(ls);
    TrackLinesLonger(ls, l);
    FeedCloses(r, l);
    if l.TrackLine? {
      OpenFresh(ls, r, l.number);
      if at != [] {
        OneMoreDescribed(ls, l.number, r.done, OpenTrack(r));
      } else {
        EachDescribedLonger(ls, l, r.done);
      }
    } else {
      EachDescribedLonger(ls, l, r.done);
      assert TrackLines(ls + [l]) == at && |ls + [l]| == |ls| + 1;
      if at != [] {
        OpenLonger(ls, l, at[|at| - 1], r);
      }
    }
  }

  lemma HeaderReadOn(ls: seq<Line>, r: Reader, l: Line)
    requires TracksRead(ls, r) && HeaderRead(ls, r)
    ensures HeaderRead(ls + [l], Feed(r, l))
  {
    hide Describes;
    hide TrackLines;
    hide LastOf;
    HeaderLonger(ls, l);
    LastOfLonger(ls, l, FileIn());
    LastOfLonger(ls, l, TitleIn());
    LastOfLonger(ls, l, PerformerIn());
    LastOfLonger(ls, l, CodeIn());
  }

  lemma HeaderLonger(ls: seq<Line>, l: Line)
    ensures Header(ls + [l]) == if TrackLines(ls) == [] && !l.TrackLine? then ls + [l] else Header(ls)
  {
    hide TrackLines;
    TrackLinesLonger(ls, l);
    if TrackLines(ls) == [] {
      assert (ls + [l])[..|ls|] == ls;
    } else {
      assert (ls + [l])[..TrackLines(ls)[0]] == ls[..TrackLines(ls)[0]];
    }
  }

  lemma {:induction false} ScanReads(ls: seq<Line>)
    ensures TracksRead(ls, Scan(ls)) && HeaderRead(ls, Scan(ls))
  {
    if ls != [] {
      var init, l := ls[..|ls| - 1], ls[|ls| - 1];
      assert ls == init + [l];
      ScanReads(init);
      TracksReadOn(init, Scan(init), l);
      HeaderReadOn(init, Scan(init), l);
    }
  }

  /** Closing the open track at the end of the sheet completes the list. */
  lemma FlushReads(ls: seq<Line>, r: Reader)
    requires TracksRead(ls, r)
    ensures |Flush(r).done| == |TrackLines(ls)| && EachDescribed(ls, Flush(r).done)
  {
    hide Describes;
    hide TrackLines;
  }

  /** One pass over a sheet reads, for each of its TRACK lines, the track that the lines up to the next describe. */
  lemma SheetRead(ls: seq<Line>)
    ensures |Flush(Scan(ls)).done| == |TrackLines(ls)| && EachDescribed(ls, Flush(Scan(ls)).done)
    ensures forall i :: 0 <= i < |ls| ==> (ls[i].TrackLine? <==> i in TrackLines(ls))
  {
    hide EachDescribed;
    hide Scan;
    hide Flush;
    hide TracksRead;
    hide HeaderRead;
    hide TrackLines;
    ScanReads(ls);
    FlushReads(ls, Scan(ls));
    forall i | 0 <= i < |ls| && ls[i].TrackLine? ensures i in TrackLines(ls) {
      AllTrackLines(ls, i);
    }
  }

  // ------------------------------------------------------------------- CD-TEXT

  const NO_TITLE := "Unknown Title"
  const NO_PERFORMER := "Unknown Artist"

  /** The title a ripper makes up for a track of a disc without CD-TEXT. */
  function MadeUpTitle(n: nat): string
  {
    "Track" + (if n < 10 then "0" else "") + Digits(n)
  }

  function Unless(o: Option<string>, placeholder: string): Option<string>
  {
    if o == Some(placeholder) then None else o
  }

  /** Placeholders on a track are dropped only when both of the disc's own are placeholders. */
  function WithoutMadeUp(t: Track, none: bool): Track
  {
    if !none then t
    else t.(title := Unless(t.title, MadeUpTitle(t.number)), performer := Unless(t.performer, NO_PERFORMER))
  }

  // ------------------------------------------------------------------ boundaries

  function Or(o: Indexes, i: nat, j: nat): int
  {
    if i in o then o[i] else if j in o then o[j] else 0
  }

  /** Where a track's own audio begins, its pregap passed over. */
  function StartOf(t: Track): int
  {
    Or(t.indexes, 1, 0)
  }

  /** Where a track begins, its pregap included. */
  function BeginOf(t: Track): int
  {
    Or(t.indexes, 0, 1)
  }

  function PregapOf(t: Track): Option<int>
  {
    if 0 in t.indexes && 1 in t.indexes && t.indexes[1] >= t.indexes[0] then Some(t.indexes[1] - t.indexes[0]) else None
  }

  /** A track with its boundaries, ended by the next one of the same file. */
  function Bounded(ts: seq<Track>, i: nat): Track
    requires i < |ts|
  {
    var t := ts[i];
    var t1 := t.(start := StartOf(t), pregap := PregapOf(t), startSector := MsToSectors(StartOf(t)));
    if i + 1 < |ts| && ts[i + 1].file == t.file then t1.(end := BeginOf(ts[i + 1])) else t1
  }

  function Bound(ts: seq<Track>): (r: seq<Track>)
    ensures |r| == |ts| && forall i :: 0 <= i < |ts| ==> r[i] == Bounded(ts, i)
  {
    seq(|ts|, i requires 0 <= i < |ts| => Bounded(ts, i))
  }

  function Cleaned(ts: seq<Track>, none: bool): (r: seq<Track>)
    ensures |r| == |ts| && forall i :: 0 <= i < |ts| ==> r[i] == WithoutMadeUp(ts[i], none)
  {
    seq(|ts|, i requires 0 <= i < |ts| => WithoutMadeUp(ts[i], none))
  }

  /** The table of contents of a sheet; how long the last track is, the sheet cannot say. */
  function ParseCue(ls: seq<Line>): Toc
  {
    var r := Flush(Scan(ls));
    var none := r.title == Some(NO_TITLE) && r.performer == Some(NO_PERFORMER);
    Toc(Bound(Cleaned(r.done, none)), 0, Unless(r.title, NO_TITLE), Unless(r.performer, NO_PERFORMER), r.dataFile,
        r.barcode)
  }

  /** The last track ended, and the leadout placed, where the audio stops. */
  function Finalized(toc: Toc, total: int): (r: Toc)
    ensures |r.tracks| == |toc.tracks|
  {
    var n := |toc.tracks|;
    toc.(tracks := if n == 0 then [] else toc.tracks[n - 1 := toc.tracks[n - 1].(end := total)],
         leadout := MsToSectors(total))
  }

  /** One file holds every track. */
  ghost predicate OneFile(ts: seq<Track>)
  {
    forall i, j :: 0 <= i < |ts| && 0 <= j < |ts| ==> ts[i].file == ts[j].file
  }

  /** Each track but the first begins no later than it starts, and each starts no later than the next begins. */
  ghost predicate InOrder(ts: seq<Track>, total: int)
  {
    && (forall i :: 1 <= i < |ts| ==> BeginOf(ts[i]) <= StartOf(ts[i]))
    && (forall i, j :: 0 <= i && j == i + 1 < |ts| ==> StartOf(ts[i]) <= BeginOf(ts[j]))
    && (ts != [] ==> StartOf(ts[|ts| - 1]) <= total)
  }

  /** The finished tracks: each starts before it ends, and the next starts after that, by its pregap. */
  ghost predicate Tiled(ts: seq<Track>, total: int)
  {
    && (forall i :: 0 <= i < |ts| ==> ts[i].start <= ts[i].end)
    && (forall i, j :: 0 <= i && j == i + 1 < |ts| ==>
          ts[i].end <= ts[j].start && ts[j].start - ts[i].end == PregapLength(ts[j]))
    && (ts != [] ==> ts[|ts| - 1].end == total)
  }

  function PregapLength(t: Track): int
  {
    if t.pregap.Some? then t.pregap.value else 0
  }

  function Lengths(ts: seq<Track>): int
  {
    if ts == [] then 0 else Lengths(ts[..|ts| - 1]) + ts[|ts| - 1].end - ts[|ts| - 1].start
  }

  /** The pregaps of all tracks after the first. */
  function Pregaps(ts: seq<Track>): int
  {
    if |ts| <= 1 then 0 else Pregaps(ts[..|ts| - 1]) + PregapLength(ts[|ts| - 1])
  }

  lemma FinalTrack(toc: Toc, ts: seq<Track>, total: int, i: nat)
    requires i < |ts| && OneFile(ts) && toc.tracks == Bound(ts)
    ensures var t := Finalized(toc, total).tracks[i];
      && t.start == StartOf(ts[i]) && t.pregap == PregapOf(ts[i])
      && t.end == if i + 1 < |ts| then BeginOf(ts[i + 1]) else total
  {
  }

  /** The tracks of a one-file sheet tile the disc exactly when the sheet's positions are in order. */
  lemma TilesIffInOrder(toc: Toc, ts: seq<Track>, total: int)
    requires OneFile(ts) && toc.tracks == Bound(ts)
    ensures Tiled(Finalized(toc, total).tracks, total) <==> InOrder(ts, total)
  {
    hide Finalized;
    hide Bound;
    var r := Finalized(toc, total).tracks;
    forall i | 0 <= i < |ts| ensures r[i].start == StartOf(ts[i]) {
      FinalTrack(toc, ts, total, i);
    }
    forall i, j | 0 <= i && j == i + 1 < |ts| ensures Adjoins(r[i], r[j], ts[j]) {
      FinalTrack(toc, ts, total, i);
      FinalTrack(toc, ts, total, j);
      PregapMeasures(ts[j]);
    }
    if ts != [] {
      FinalTrack(toc, ts, total, |ts| - 1);
    }
    TiledFrom(r, ts, total);
  }

  lemma PregapMeasures(t: Track)
    ensures BeginOf(t) <= StartOf(t) ==> StartOf(t) - BeginOf(t) == if PregapOf(t).Some? then PregapOf(t).value else 0
  {
  }

  /** A track that ends where the next begins leaves just that one's pregap when its positions are in order. */
  ghost predicate Adjoins(t: Track, next: Track, given: Track)
  {
    && t.end == BeginOf(given)
    && (t.end <= next.start && next.start - t.end == PregapLength(next) <==> BeginOf(given) <= StartOf(given))
  }

  lemma TiledFrom(r: seq<Track>, ts: seq<Track>, total: int)
    requires |r| == |ts|
    requires forall i :: 0 <= i < |ts| ==> r[i].start == StartOf(ts[i])
    requires forall i, j :: 0 <= i && j == i + 1 < |ts| ==> Adjoins(r[i], r[j], ts[j])
    requires ts != [] ==> r[|ts| - 1].end == total
    ensures Tiled(r, total) <==> InOrder(ts, total)
  {
    if Tiled(r, total) {
      TiledInOrder(r, ts, total);
    }
    if InOrder(ts, total) {
      InOrderTiles(r, ts, total);
    }
  }

  lemma TiledInOrder(r: seq<Track>, ts: seq<Track>, total: int)
    requires |r| == |ts| && Tiled(r, total)
    requires forall i :: 0 <= i < |ts| ==> r[i].start == StartOf(ts[i])
    requires forall i, j :: 0 <= i && j == i + 1 < |ts| ==> Adjoins(r[i], r[j], ts[j])
    ensures InOrder(ts, total)
  {
    hide StartOf;
    hide BeginOf;
    hide PregapLength;
    forall j | 1 <= j < |ts| ensures BeginOf(ts[j]) <= StartOf(ts[j]) {
      var i := j - 1;
      assert Adjoins(r[i], r[j], ts[j]);
    }
    forall i, j | 0 <= i && j == i + 1 < |ts| ensures StartOf(ts[i]) <= BeginOf(ts[j]) {
      assert Adjoins(r[i], r[j], ts[j]);
    }
  }

  lemma InOrderTiles(r: seq<Track>, ts: seq<Track>, total: int)
    requires |r| == |ts| && InOrder(ts, total)
    requires forall i :: 0 <= i < |ts| ==> r[i].start == StartOf(ts[i])
    requires forall i, j :: 0 <= i && j == i + 1 < |ts| ==> Adjoins(r[i], r[j], ts[j])
    requires ts != [] ==> r[|ts| - 1].end == total
    ensures Tiled(r, total)
  {
    hide StartOf;
    hide BeginOf;
    hide PregapLength;
    forall i | 0 <= i < |r| ensures r[i].start <= r[i].end {
      if i < |r| - 1 {
        var j := i + 1;
        assert Adjoins(r[i], r[j], ts[j]);
      }
    }
    forall i, j | 0 <= i && j == i + 1 < |r|
      ensures r[i].end <= r[j].start && r[j].start - r[i].end == PregapLength(r[j])
    {
      assert Adjoins(r[i], r[j], ts[j]);
    }
  }

  /** Where the tracks tile, their lengths and the pregaps between them add up to the audio after the first start. */
  lemma {:induction false} LengthsAndPregaps(ts: seq<Track>, total: int)
    requires Tiled(ts, total) && ts != []
    ensures Lengths(ts) + Pregaps(ts) == total - ts[0].start
  {
    var n := |ts| - 1;
    if n > 0 {
      var init := ts[..n];
      var last := n - 1;
      assert ts[n].start - ts[last].end == PregapLength(ts[n]);
      assert Tiled(init, ts[last].end) by {
        forall i | 0 <= i < |init| ensures init[i].start <= init[i].end {
          assert init[i] == ts[i];
        }
      }
      LengthsAndPregaps(init, ts[last].end);
    } else {
      assert ts[..0] == [];
    }
  }

  // ------------------------------------------------------------- a sheet and its audio

  /** Every FILE line stands before every TRACK line: the sheet of an image rip. */
  ghost predicate HeadedByFile(ls: seq<Line>)
  {
    forall i, k :: 0 <= i < |ls| && 0 <= k < |ls| && ls[i].FileLine? && ls[k].TrackLine? ==> i < k
  }

  /** The last position that the k-th track's lines give for an index number. */
  function GivenFor(ls: seq<Line>, k: nat, i: nat): Option<int>
    requires k < |TrackLines(ls)|
  {
    LastOf(ls[TrackLines(ls)[k] + 1..EndOf(ls, k)], PositionIn(i))
  }

  function FirstGiven(a: Option<int>, b: Option<int>): int
  {
    if a.Some? then a.value else if b.Some? then b.value else 0
  }

  /** Where the k-th track's audio starts, by its lines, and where its pregap does. */
  function SheetStart(ls: seq<Line>, k: nat): int
    requires k < |TrackLines(ls)|
  {
    FirstGiven(GivenFor(ls, k, 1), GivenFor(ls, k, 0))
  }

  function SheetBegin(ls: seq<Line>, k: nat): int
    requires k < |TrackLines(ls)|
  {
    FirstGiven(GivenFor(ls, k, 0), GivenFor(ls, k, 1))
  }

  /** The positions on the sheet do not run backwards, nor past the audio's end. */
  ghost predicate SheetInOrder(ls: seq<Line>, total: int)
  {
    var n := |TrackLines(ls)|;
    && (forall k :: 1 <= k < n ==> SheetBegin(ls, k) <= SheetStart(ls, k))
    && (forall j, k :: 0 <= j && k == j + 1 < n ==> SheetStart(ls, j) <= SheetBegin(ls, k))
    && (n > 0 ==> SheetStart(ls, n - 1) <= total)
  }

  lemma {:induction false} NoFileBetween(ls: seq<Line>, m: nat, n: nat)
    requires m <= n <= |ls| && forall i :: m <= i < n ==> !ls[i].FileLine?
    ensures LastOf(ls[..n], FileIn()) == LastOf(ls[..m], FileIn())
  {
    if m < n {
      assert ls[..n][..n - 1] == ls[..n - 1];
      NoFileBetween(ls, m, n - 1);
    }
  }

  /** Under one FILE line, every track is in one file. */
  lemma OneFileRead(ls: seq<Line>, ts: seq<Track>)
    requires HeadedByFile(ls) && EachDescribed(ls, ts)
    ensures OneFile(ts)
  {
    hide LastOf;
    hide PositionsRead;
    hide TrackLines;
    hide StartLine;
    if ts != [] {
      var at := TrackLines(ls);
      forall k | 0 <= k < |ts| ensures ts[k].file == LastOf(ls[..at[0]], FileIn()) {
        assert Describes(ls, at[k], EndOf(ls, k), ts[k]);
        NoFileBetween(ls, at[0], StartLine(ls, at[k], EndOf(ls, k)));
      }
    }
  }

  /** A described track's positions are those its lines give. */
  lemma DescribedPositions(ls: seq<Line>, ts: seq<Track>, k: nat)
    requires EachDescribed(ls, ts) && k < |ts|
    ensures StartOf(ts[k]) == SheetStart(ls, k) && BeginOf(ts[k]) == SheetBegin(ls, k)
  {
    hide LastOf;
    hide TrackLines;
    hide StartLine;
    var own := ls[TrackLines(ls)[k] + 1..EndOf(ls, k)];
    assert Describes(ls, TrackLines(ls)[k], EndOf(ls, k), ts[k]);
    assert PositionsRead(own, ts[k].indexes);
    GivenIndex(own, ts[k].indexes, 0);
    GivenIndex(own, ts[k].indexes, 1);
  }

  lemma GivenIndex(own: seq<Line>, indexes: Indexes, i: nat)
    requires PositionsRead(own, indexes)
    ensures LastOf(own, PositionIn(i)) == if i in indexes then Some(indexes[i]) else None
  {
  }

  /** Dropping placeholders changes neither positions nor files. */
  lemma CleanedAlike(ts: seq<Track>, none: bool)
    ensures OneFile(ts) ==> OneFile(Cleaned(ts, none))
    ensures forall k :: 0 <= k < |ts| ==>
      StartOf(Cleaned(ts, none)[k]) == StartOf(ts[k]) && BeginOf(Cleaned(ts, none)[k]) == BeginOf(ts[k])
  {
  }

  /**
   An image rip's sheet, read and finished: one track for each TRACK line, starting where its lines say. The
   tracks tile the audio, each ended where the next one's pregap begins, exactly when the positions on the
   sheet are in order; and then their lengths and the pregaps between them fill it from the first start on.
   */
  lemma SheetTiles(ls: seq<Line>, total: int)
    requires HeadedByFile(ls)
    ensures var ts := Finalized(ParseCue(ls), total).tracks;
      && |ts| == |TrackLines(ls)|
      && (forall k :: 0 <= k < |ts| ==> ts[k].start == SheetStart(ls, k))
      && (Tiled(ts, total) <==> SheetInOrder(ls, total))
      && (SheetInOrder(ls, total) && ts != [] ==> Lengths(ts) + Pregaps(ts) == total - SheetStart(ls, 0))
  {
    hide Scan;
    hide TrackLines;
    hide EachDescribed;
    var r := Flush(Scan(ls));
    var none := r.title == Some(NO_TITLE) && r.performer == Some(NO_PERFORMER);
    var ts := Cleaned(r.done, none);
    SheetRead(ls);
    OneFileRead(ls, r.done);
    CleanedAlike(r.done, none);
    forall k | 0 <= k < |ts| ensures StartOf(ts[k]) == SheetStart(ls, k) && BeginOf(ts[k]) == SheetBegin(ls, k) {
      DescribedPositions(ls, r.done, k);
    }
    FinishedSheet(ls, ParseCue(ls), ts, total);
  }

  lemma FinishedSheet(ls: seq<Line>, toc: Toc, ts: seq<Track>, total: int)
    requires OneFile(ts) && toc.tracks == Bound(ts) && |ts| == |TrackLines(ls)|
    requires forall k :: 0 <= k < |ts| ==> StartOf(ts[k]) == SheetStart(ls, k) && BeginOf(ts[k]) == SheetBegin(ls, k)
    ensures var r := Finalized(toc, total).tracks;
      && |r| == |ts| && (forall k :: 0 <= k < |r| ==> r[k].start == SheetStart(ls, k))
      && (Tiled(r, total) <==> SheetInOrder(ls, total))
      && (SheetInOrder(ls, total) && r != [] ==> Lengths(r) + Pregaps(r) == total - SheetStart(ls, 0))
  {
    hide TrackLines;
    hide SheetStart;
    hide SheetBegin;
    hide StartOf;
    hide BeginOf;
    var r := Finalized(toc, total).tracks;
    forall k | 0 <= k < |ts| ensures r[k].start == SheetStart(ls, k) {
      FinalTrack(toc, ts, total, k);
    }
    hide Finalized;
    TilesIffInOrder(toc, ts, total);
    if Tiled(r, total) && r != [] {
      LengthsAndPregaps(r, total);
    }
    hide Tiled;
    assert InOrder(ts, total) <==> SheetInOrder(ls, total);
  }

  // ------------------------------------------------------------------------ logs

  datatype Row = Row(number: nat, first: int, last: int)

  /** A rip log's table of contents, as rows of sectors. */
  function TocFromLog(rows: seq<Row>): Option<Toc>
  {
    if rows == [] then None
    else
      Some(Toc(LogTracks(rows), rows[|rows| - 1].last + 1, None, None, None, None))
  }

  function LogTracks(rows: seq<Row>): (ts: seq<Track>)
    ensures |ts| == |rows|
  {
    seq(|rows|, i requires 0 <= i < |rows| =>
      Track(rows[i].number, SectorsToMs(rows[i].first), SectorsToMs(rows[i].last + 1), rows[i].first, rows[i].last,
            None, map[], None, None, None, None))
  }

  const LEAD_IN := 150

  function Offsets(toc: Toc): (os: seq<int>)
    ensures |os| == |toc.tracks|
  {
    seq(|toc.tracks|, i requires 0 <= i < |toc.tracks| => MsToSectors(toc.tracks[i].start) + LEAD_IN)
  }

  function Leadout(toc: Toc): int
  {
    toc.leadout + LEAD_IN
  }

  /** The log's offsets are its own sectors, past the lead-in. */
  lemma LogOffsets(rows: seq<Row>)
    requires rows != []
    ensures var toc := TocFromLog(rows).value;
      && Leadout(toc) == rows[|rows| - 1].last + 1 + LEAD_IN
      && |Offsets(toc)| == |rows| && forall i :: 0 <= i < |rows| ==> Offsets(toc)[i] == rows[i].first + LEAD_IN
  {
    forall i | 0 <= i < |rows| ensures Offsets(TocFromLog(rows).value)[i] == rows[i].first + LEAD_IN {
      SectorRoundTrip(rows[i].first);
    }
  }

  // ------------------------------------------------------------- a sheet and a log

  datatype Position = Position(minutes: nat, seconds: nat, frames: nat)

  function SectorOf(p: Position): nat
  {
    FramesToSectors(p.minutes, p.seconds, p.frames)
  }

  function MsOf(p: Position): int
  {
    FramesToMs(p.minutes, p.seconds, p.frames)
  }

  /** The position a line gives for an index number, as it is written. */
  function PlaceIn(i: nat): Line -> Option<Position>
  {
    (l: Line) => if l.Index? && l.number == i then Some(Position(l.minutes, l.seconds, l.frames)) else None
  }

  function PlaceFor(ls: seq<Line>, k: nat, i: nat): Option<Position>
    requires k < |TrackLines(ls)|
  {
    LastOf(ls[TrackLines(ls)[k] + 1..EndOf(ls, k)], PlaceIn(i))
  }

  /** The sector that the k-th track's lines start it in: by INDEX 01, or else by INDEX 00, or else the first. */
  function SheetSector(ls: seq<Line>, k: nat): nat
    requires k < |TrackLines(ls)|
  {
    match PlaceFor(ls, k, 1)
    case Some(p) => SectorOf(p)
    case None =>
      match PlaceFor(ls, k, 0)
      case Some(p) => SectorOf(p)
      case None => 0
  }

  lemma {:induction false} PlaceInMs(own: seq<Line>, i: nat)
    ensures LastOf(own, PositionIn(i)) == match LastOf(own, PlaceIn(i)) case Some(p) => Some(MsOf(p)) case None => None
  {
    hide FramesToMs;
    if own != [] {
      PlaceInMs(own[..|own| - 1], i);
    }
  }

  /** Where a track starts in milliseconds leads back to the sector its lines start it in. */
  lemma SheetStartSector(ls: seq<Line>, k: nat)
    requires k < |TrackLines(ls)|
    ensures MsToSectors(SheetStart(ls, k)) == SheetSector(ls, k)
  {
    hide TrackLines;
    hide LastOf;
    hide FramesToMs;
    hide MsToSectors;
    var own := ls[TrackLines(ls)[k] + 1..EndOf(ls, k)];
    PlaceInMs(own, 0);
    PlaceInMs(own, 1);
    MsRoundTrip(PlaceFor(ls, k, 0));
    MsRoundTrip(PlaceFor(ls, k, 1));
  }

  lemma MsRoundTrip(p: Option<Position>)
    ensures p.Some? ==> MsToSectors(MsOf(p.value)) == SectorOf(p.value)
    ensures MsToSectors(0) == 0
  {
    if p.Some? {
      FrameRoundTrip(p.value.minutes, p.value.seconds, p.value.frames);
    }
    SectorRoundTrip(0);
  }

  /** Finishing the tracks moves no start. */
  lemma FinishedStart(toc: Toc, ts: seq<Track>, total: int, k: nat)
    requires k < |ts| && toc.tracks == Bound(ts)
    ensures Finalized(toc, total).tracks[k].start == StartOf(ts[k])
  {
    hide StartOf;
    hide MsToSectors;
  }

  /** Any sheet, read and finished: one track for each TRACK line, starting where its lines say. */
  lemma SheetStarts(ls: seq<Line>, total: int)
    ensures var ts := Finalized(ParseCue(ls), total).tracks;
      |ts| == |TrackLines(ls)| && forall k :: 0 <= k < |ts| ==> ts[k].start == SheetStart(ls, k)
  {
    hide Scan;
    hide TrackLines;
    hide EachDescribed;
    hide Flush;
    hide SheetStart;
    hide SheetBegin;
    hide Finalized;
    hide StartOf;
    var r := Flush(Scan(ls));
    var none := r.title == Some(NO_TITLE) && r.performer == Some(NO_PERFORMER);
    var ts := Cleaned(r.done, none);
    SheetRead(ls);
    CleanedAlike(r.done, none);
    forall k | 0 <= k < |ts| ensures Finalized(ParseCue(ls), total).tracks[k].start == SheetStart(ls, k) {
      DescribedPositions(ls, r.done, k);
      FinishedStart(ParseCue(ls), ts, total, k);
    }
  }

  /** How long the audio is by its log, in milliseconds. */
  function AudioMs(rows: seq<Row>): int
    requires rows != []
  {
    SectorsToMs(rows[|rows| - 1].last + 1)
  }

  /**
   A sheet and a log of one disc, track for track in the same sectors and the audio as long as the log says, give
   the same offsets and leadout, however the sheet's positions round to milliseconds.
   */
  lemma SheetAndLogOffsets(ls: seq<Line>, rows: seq<Row>)
    requires rows != [] && |rows| == |TrackLines(ls)|
    requires forall k :: 0 <= k < |rows| ==> SheetSector(ls, k) == rows[k].first
    ensures Offsets(Finalized(ParseCue(ls), AudioMs(rows))) == Offsets(TocFromLog(rows).value)
    ensures Leadout(Finalized(ParseCue(ls), AudioMs(rows))) == Leadout(TocFromLog(rows).value)
  {
    hide TrackLines;
    hide SheetStart;
    hide SheetSector;
    hide ParseCue;
    hide SectorsToMs;
    hide MsToSectors;
    var toc := Finalized(ParseCue(ls), AudioMs(rows));
    LogOffsets(rows);
    SectorRoundTrip(rows[|rows| - 1].last + 1);
    SheetStarts(ls, AudioMs(rows));
    forall k | 0 <= k < |rows| ensures Offsets(toc)[k] == rows[k].first + LEAD_IN {
      SheetStartSector(ls, k);
    }
    hide TocFromLog;
    assert Offsets(toc) == Offsets(TocFromLog(rows).value);
  }

  // ---------------------------------------------------------------------- reading

  /** The reader at work, line after line. */
  class CueReader {
    var title: Option<string>
    var performer: Option<string>
    var dataFile: Option<string>
    var barcode: Option<string>
    var file: Option<string>
    var tracks: seq<Track>
    var open: Option<nat>
    var openTitle: Option<string>
    var openPerformer: Option<string>
    var openIsrc: Option<string>
    var openFile: Option<string>
    var openIndexes: Indexes
    var seenTrack: bool

    constructor ()
      ensures State() == FRESH
    {
      title, performer, dataFile, barcode, file := None, None, None, None, None;
      tracks, open := [], None;
      openTitle, openPerformer, openIsrc, openFile, openIndexes := None, None, None, None, map[];
      seenTrack := false;
    }

    ghost function State(): Reader
      reads this
    {
      Reader(title, performer, dataFile, barcode, file, tracks, open, openTitle, openPerformer, openIsrc, openFile,
             openIndexes, seenTrack)
    }

    method Close()
      modifies this
      ensures State() == Flush(old(State()))
    {
      if open.Some? {
        tracks := tracks + [Bare(open.value, openIndexes, openTitle, openPerformer, openFile, openIsrc)];
      }
      open, openTitle, openPerformer, openIndexes := None, None, None, map[];
      openFile, openIsrc := None, None;
    }

    /** A TITLE or PERFORMER line names the open track, or before the first track the disc. */
    method TakeText(l: Line)
      requires l.Title? || l.Performer?
      modifies this
      ensures State() == Feed(old(State()), l)
    {
      if open.Some? {
        if l.Title? {
          openTitle := Some(l.text);
        } else {
          openPerformer := Some(l.text);
        }
      } else if !seenTrack {
        if l.Title? {
          title := Some(l.text);
        } else {
          performer := Some(l.text);
        }
      }
    }

    /** An INDEX line places the open track, and its first index fixes the track's file. */
    method TakeIndex(l: Line)
      requires l.Index?
      modifies this
      ensures State() == Feed(old(State()), l)
    {
      hide FramesToMs;
      if open.Some? {
        openIndexes := openIndexes[l.number := FramesToMs(l.minutes, l.seconds, l.frames)];
        if l.number == 1 {
          openFile := file;
        }
      }
    }

    method Take(l: Line)
      modifies this
      ensures State() == Feed(old(State()), l)
    {
      match l {
        case FileLine(name) =>
          file := Some(name);
          if dataFile.None? {
            dataFile := file;
          }
        case Catalog(code) =>
          if !seenTrack {
            barcode := Some(code);
          }
        case TrackLine(n) =>
          Close();
          open, openFile, seenTrack := Some(n), file, true;
        case Isrc(code) =>
          if open.Some? {
            openIsrc := Some(code);
          }
        case Index(_, _, _, _) => TakeIndex(l);
        case Title(_) => TakeText(l);
        case Performer(_) => TakeText(l);
        case Other =>
      }
    }

    /** The boundaries filled in, track by track, in place. */
    method BoundTracks()
      modifies this`tracks
      ensures tracks == Bound(old(tracks))
    {
      ghost var was := tracks;
      for i := 0 to |tracks|
        invariant |tracks| == |was|
        invariant forall k :: 0 <= k < i ==> tracks[k] == Bounded(was, k)
        invariant forall k :: i <= k < |was| ==> tracks[k] == was[k]
        modifies this`tracks
      {
        var t := tracks[i];
        t := t.(start := StartOf(t), pregap := PregapOf(t));
        if i + 1 < |tracks| && tracks[i + 1].file == t.file {
          t := t.(end := BeginOf(tracks[i + 1]));
        }
        t := t.(startSector := MsToSectors(t.start));
        tracks := tracks[i := t];
      }
    }

    method Parse(ls: seq<Line>) returns (toc: Toc)
      requires State() == FRESH
      modifies this
      ensures toc == ParseCue(ls)
    {
      for i := 0 to |ls|
        invariant State() == Scan(ls[..i])
      {
        assert ls[..i + 1][..i] == ls[..i];
        Take(ls[i]);
      }
      assert ls[..|ls|] == ls;
      Close();
      var none := title == Some(NO_TITLE) && performer == Some(NO_PERFORMER);
      tracks := Cleaned(tracks, none);
      BoundTracks();
      toc := Toc(tracks, 0, Unless(title, NO_TITLE), Unless(performer, NO_PERFORMER), dataFile, barcode);
    }
  }

  /** A table of contents that is completed once the audio's length is known. */
  class Disc {
    var toc: Toc

    constructor (t: Toc)
      ensures toc == t
    {
      toc := t;
    }

    method FinalizeLeadout(total: int)
      modifies this
      ensures toc == Finalized(old(toc), total)
    {
      var n := |toc.tracks|;
      if n > 0 {
        toc := toc.(tracks := toc.tracks[n - 1 := toc.tracks[n - 1].(end := total)]);
      }
      toc := toc.(leadout := MsToSectors(total));
    }
  }
}
