/**
 Moving a rip into a folder of its own, all or nothing: tools/cd_import.py.

 A disk is a map from folders to the files in each. Every operation that can fail is given its outcome:
 done, refused with nothing changed, or broken off with other bytes left at the destination.
 */
module FileMove {

  type Bytes = seq<int>
  type Folder = map<string, Bytes>
  type Disk = map<string, Folder>

  // ------------------------------------------------------------------- outcomes

  datatype Attempt = Done | Refused | Left(junk: Bytes) {
    function Junk(): Bytes
    {
      if Left? then junk else []
    }
  }

  /**
   Rewriting a sheet: not opened; read and recorded but not rewritten; nothing to rename; or written,
   whole or not.
   */
  datatype Rewrite = Unopened | Unread | Kept | Rewritten(text: Bytes) | Broken(junk: Bytes)

  /** How every operation of one job goes; `leaves` is what is left in the folder when it is not cleared. */
  datatype Luck = Luck(makes: bool, move: string -> Attempt, copy: string -> Attempt, rewrite: string -> Rewrite,
                       restore: string -> Attempt, back: string -> Attempt, clears: bool, leaves: set<string>)

  predicate Fails(w: Rewrite)
  {
    w.Unopened? || w.Unread? || w.Broken?
  }

  /** A sheet's bytes after the attempt to rewrite it. */
  function Altered(w: Rewrite, was: Bytes): Bytes
  {
    match w
    case Rewritten(text) => text
    case Broken(junk) => junk
    case _ => was
  }

  /** A sheet's bytes after the attempt to write its old bytes back. */
  function AfterRestore(a: Attempt, now: Bytes, was: Bytes): Bytes
  {
    match a
    case Done => was
    case Refused => now
    case Left(junk) => junk
  }

  predicate IsCue(n: string)
  {
    |n| >= 4 && n[|n| - 4] == '.' && n[|n| - 3] in {'c', 'C'} && n[|n| - 2] in {'u', 'U'} && n[|n| - 1] in {'e', 'E'}
  }

  // ------------------------------------------------------------------- the job

  /** Which files to move, under which names, and which covers to copy beside them. */
  datatype Job = Job(source: string, target: string, names: seq<string>, renames: map<string, string>,
                     covers: seq<string>)
  {
    function Dst(n: string): string
    {
      if n in renames then renames[n] else n
    }

    predicate Sheet(n: string)
    {
      renames != map[] && IsCue(n)
    }

    /** No two files are given one name, and no cover takes a file's. */
    ghost predicate Apart()
    {
      && (forall m, n :: m in names && n in names && Dst(m) == Dst(n) ==> m == n)
      && (forall m, c :: m in names && c in covers ==> Dst(m) != c)
    }

    ghost predicate Listed()
    {
      forall i, j :: 0 <= i < j < |names| ==> names[i] != names[j]
    }

    /** What the callers give: files that are in the source, each once, and a cover that is not among them. */
    ghost predicate Ready(disk: Disk)
    {
      && source in disk && source != target && Listed()
      && (forall n :: n in names ==> n in disk[source])
      && (forall c :: c in covers ==> c in disk[source] && c !in names)
    }
  }

  // ------------------------------------------------------ where a move has got to

  /** The source: all that has not moved is as it was, and of what has, only what a broken put-back spilled. */
  ghost predicate SourceAt(was: Folder, src: Folder, moved: set<string>, spill: Folder)
  {
    && (forall n :: n !in moved ==> (n in src <==> n in was) && (n in src ==> src[n] == was[n]))
    && (forall n :: n in moved ==> (n in src <==> n in spill) && (n in src ==> src[n] == spill[n]))
  }

  /** The bytes a moved file has: those it had, or a sheet's as they are now. */
  function Holding(was: Folder, sheets: Folder, n: string): Bytes
    requires n in was
  {
    if n in sheets then sheets[n] else was[n]
  }

  /** The target: each moved file under its name there, and what else was put there. */
  ghost predicate TargetAt(job: Job, was: Folder, tgt: Folder, moved: set<string>, sheets: Folder, extra: Folder)
  {
    && (forall n :: n in moved ==> n in was && job.Dst(n) in tgt && tgt[job.Dst(n)] == Holding(was, sheets, n))
    && (forall d :: d in extra ==> d in tgt && tgt[d] == extra[d])
    && (forall d :: d in tgt ==> d in extra || exists n :: n in moved && job.Dst(n) == d)
    && (forall n :: n in moved ==> job.Dst(n) !in extra)
  }

  ghost predicate MovedAmong(job: Job, moved: set<string>)
  {
    forall n :: n in moved ==> n in job.names
  }

  /** A file gone from the source. */
  lemma GoneOne(was: Folder, src: Folder, moved: set<string>, n: string)
    requires SourceAt(was, src, moved, map[]) && n !in moved && n in was
    ensures n in src && src[n] == was[n] && SourceAt(was, src - {n}, moved + {n}, map[])
  {
  }

  lemma NothingMoved(job: Job, was: Folder, tgt: Folder)
    requires tgt == map[]
    ensures SourceAt(was, was, Names(job.names[..0]), map[])
    ensures TargetAt(job, was, tgt, Names(job.names[..0]), map[], map[])
  {
  }

  lemma NextName(job: Job, i: nat)
    requires job.Listed() && job.Apart() && i < |job.names|
    ensures var n, moved := job.names[i], Names(job.names[..i]);
      && n !in moved && n in job.names && MovedAmong(job, moved) && Names(job.names[..i + 1]) == moved + {n}
      && forall m :: m in moved ==> job.Dst(m) != job.Dst(n)
  {
  }

  lemma MoveOne(job: Job, was: Folder, tgt: Folder, moved: set<string>, extra: Folder, n: string)
    requires job.Apart() && MovedAmong(job, moved) && n in job.names && n !in moved && n in was && job.Dst(n) !in extra
    requires TargetAt(job, was, tgt, moved, map[], extra)
    ensures TargetAt(job, was, tgt[job.Dst(n) := was[n]], moved + {n}, map[], extra)
    ensures job.Dst(n) !in tgt
  {
  }

  /** Bytes put in the target beside the moved files. */
  lemma PutBeside(job: Job, was: Folder, tgt: Folder, moved: set<string>, sheets: Folder, extra: Folder, d: string,
                  b: Bytes)
    requires TargetAt(job, was, tgt, moved, sheets, extra)
    requires forall n :: n in moved ==> job.Dst(n) != d
    ensures TargetAt(job, was, tgt[d := b], moved, sheets, extra[d := b])
  {
  }

  /** A sheet's bytes changed where it lies. */
  lemma Overwrite(job: Job, was: Folder, tgt: Folder, moved: set<string>, sheets: Folder, extra: Folder, n: string,
                  b: Bytes)
    requires job.Apart() && MovedAmong(job, moved) && n in moved
    requires TargetAt(job, was, tgt, moved, sheets, extra)
    ensures TargetAt(job, was, tgt[job.Dst(n) := b], moved, sheets[n := b], extra)
  {
  }

  /** A file put back. */
  lemma TakeOut(job: Job, was: Folder, tgt: Folder, moved: set<string>, sheets: Folder, extra: Folder, n: string)
    requires job.Apart() && MovedAmong(job, moved) && n in moved
    requires TargetAt(job, was, tgt, moved, sheets, extra)
    ensures TargetAt(job, was, tgt - {job.Dst(n)}, moved - {n}, sheets, extra)
  {
  }

  // --------------------------------------------------------------- what to expect

  /** The first of some names at which an operation fails, or their number. */
  function FirstBad(ns: seq<string>, bad: string -> bool): (i: nat)
    ensures i <= |ns| && (i < |ns| ==> bad(ns[i])) && forall j :: 0 <= j < i ==> !bad(ns[j])
  {
    if ns == [] || bad(ns[0]) then 0 else 1 + FirstBad(ns[1..], bad)
  }

  /** The operation does not fail at any of the first i. */
  ghost predicate NoneBad(ns: seq<string>, bad: string -> bool, i: nat)
  {
    i <= |ns| && forall j :: 0 <= j < i ==> !bad(ns[j])
  }

  function BadMove(luck: Luck): string -> bool
  {
    n => luck.move(n) != Done
  }

  function BadCopy(luck: Luck): string -> bool
  {
    n => luck.copy(n) != Done
  }

  function BadRewrite(job: Job, luck: Luck): string -> bool
  {
    n => job.Sheet(n) && Fails(luck.rewrite(n))
  }

  /** Every move, copy and rewrite of the job succeeds. */
  predicate AllGoes(job: Job, luck: Luck)
  {
    && FirstBad(job.names, BadMove(luck)) == |job.names|
    && FirstBad(job.covers, BadCopy(luck)) == |job.covers|
    && FirstBad(job.names, BadRewrite(job, luck)) == |job.names|
  }

  /** The sheets whose bytes were recorded, in a job that fails. */
  ghost function Recorded(job: Job, luck: Luck): set<string>
  {
    var i := FirstBad(job.names, BadRewrite(job, luck));
    if FirstBad(job.names, BadMove(luck)) < |job.names| || FirstBad(job.covers, BadCopy(luck)) < |job.covers| then {}
    else SheetsTo(job, luck, i)
  }

  /** The bytes of a file after the job failed and its sheets were written back. */
  ghost function Restored(job: Job, luck: Luck, was: Folder, n: string): Bytes
    requires n in was
  {
    if n in Recorded(job, luck) then AfterRestore(luck.restore(n), Altered(luck.rewrite(n), was[n]), was[n]) else was[n]
  }

  /** The source as it is once every file is back in it. */
  ghost function AsRestored(job: Job, luck: Luck, was: Folder): (f: Folder)
    ensures f.Keys == was.Keys
  {
    map n | n in was :: Restored(job, luck, was, n)
  }

  /** The files that a failed job cannot put back. */
  ghost function StuckFiles(job: Job, luck: Luck): set<string>
  {
    set n | n in job.names[..FirstBad(job.names, BadMove(luck))] && luck.back(n) != Done
  }

  ghost function Names(ns: seq<string>): set<string>
  {
    set n | n in ns
  }

  /** The bytes of the sheets in the target when all has gone well. */
  ghost function Rewrites(job: Job, luck: Luck, was: Folder): Folder
  {
    map n | n in was && n in job.names && job.Sheet(n) :: Altered(luck.rewrite(n), was[n])
  }

  ghost function CopiesOf(cs: seq<string>, was: Folder): Folder
  {
    map c | c in was && c in cs :: was[c]
  }

  lemma NoCopies(cs: seq<string>, was: Folder)
    ensures CopiesOf(cs[..0], was) == map[]
  {
  }

  lemma CopiesLonger(cs: seq<string>, was: Folder, i: nat)
    requires i < |cs| && cs[i] in was
    ensures CopiesOf(cs[..i + 1], was) == CopiesOf(cs[..i], was)[cs[i] := was[cs[i]]]
  {
    assert cs[..i + 1] == cs[..i] + [cs[i]];
  }

  lemma CoverStays(job: Job, was: Folder, src: Folder, c: string)
    requires SourceAt(was, src, Names(job.names), map[]) && c in was && c !in job.names
    ensures c in src && src[c] == was[c]
  {
  }

  lemma PutCover(job: Job, was: Folder, tgt: Folder, extra: Folder, c: string, b: Bytes)
    requires job.Apart() && c in job.covers && TargetAt(job, was, tgt, Names(job.names), map[], extra)
    ensures TargetAt(job, was, tgt[c := b], Names(job.names), map[], extra[c := b])
  {
    PutBeside(job, was, tgt, Names(job.names), map[], extra, c, b);
  }

  /** A moved file lies in the target, with its bytes where it is no rewritten sheet. */
  lemma MovedLies(job: Job, was: Folder, tgt: Folder, moved: set<string>, sheets: Folder, extra: Folder, n: string)
    requires TargetAt(job, was, tgt, moved, sheets, extra) && n in moved
    ensures n in was && job.Dst(n) in tgt && tgt[job.Dst(n)] == Holding(was, sheets, n)
  {
  }

  datatype Result = NotMade | Moved | Stuck(at: seq<string>) | PutBack

  ghost predicate OthersSame(job: Job, before: Disk, after: Disk)
  {
    && job.source in after
    && (forall f :: f in before && f != job.source && f != job.target ==> f in after && after[f] == before[f])
    && (forall f :: f in after ==> f in before || f == job.target)
  }

  /** How a job ends, and what each ending means. */
  ghost predicate Fate(job: Job, luck: Luck, before: Disk, after: Disk, r: Result)
    requires job.Ready(before)
  {
    var was, back := before[job.source], AsRestored(job, luck, before[job.source]);
    var made := luck.makes && job.target !in before;
    match r
    case NotMade => !made && after == before
    case Moved =>
      && made && AllGoes(job, luck) && OthersSame(job, before, after) && job.target in after
      && SourceAt(was, after[job.source], Names(job.names), map[])
      && TargetAt(job, was, after[job.target], Names(job.names), Rewrites(job, luck, was), CopiesOf(job.covers, was))
    case _ => made && !AllGoes(job, luck) && OthersSame(job, before, after) && Undone(job, luck, back, after, r)
  }

  /** A failed job: some files stuck in the target, or all put back and the target cleared if it can be. */
  ghost predicate Undone(job: Job, luck: Luck, back: Folder, after: Disk, r: Result)
    requires r.Stuck? || r.PutBack?
  {
    && job.source in after
    && match r
       case Stuck(at) =>
         && job.target in after && StuckFiles(job, luck) != {}
         && (forall d :: d in at <==> exists n :: n in StuckFiles(job, luck) && job.Dst(n) == d)
         && StuckAt(job, luck, back, after[job.source], after[job.target])
         && forall d :: d in after[job.target] ==> d in at || Litter(job, luck, d)
       case PutBack =>
         && StuckFiles(job, luck) == {} && after[job.source] == back
         && (job.target in after <==> !luck.clears)
         && (job.target in after ==> forall d :: d in after[job.target] ==> Litter(job, luck, d))
  }

  /** What a failed job may leave in the target beside the files it could not put back. */
  ghost predicate Litter(job: Job, luck: Luck, d: string)
  {
    var k := FirstBad(job.names, BadMove(luck));
    d in job.covers || (k < |job.names| && luck.move(job.names[k]).Left? && d == job.Dst(job.names[k]))
  }

  lemma NoLitter(job: Job, luck: Luck)
    ensures OnlyLitter(job, luck, map[])
  {
  }

  lemma CoverLitter(job: Job, luck: Luck, extra: Folder, c: string, b: Bytes)
    requires OnlyLitter(job, luck, extra) && c in job.covers
    ensures OnlyLitter(job, luck, extra[c := b])
  {
  }

  lemma MoveLitter(job: Job, luck: Luck, i: nat)
    requires i < |job.names| && i == FirstBad(job.names, BadMove(luck))
    ensures OnlyLitter(job, luck, Debris(luck.move(job.names[i]), job.Dst(job.names[i])))
  {
  }

  /** Nothing lies in the target but what could not be put back, and litter. */
  lemma RestIsLitter(job: Job, luck: Luck, back: Folder, tgt: Folder, moved: set<string>, extra: Folder,
                     stuck: seq<string>)
    requires TargetAt(job, back, tgt, moved, map[], extra) && OnlyLitter(job, luck, extra)
    requires forall d :: d in stuck <==> exists n :: n in moved && job.Dst(n) == d
    ensures forall d :: d in tgt ==> d in stuck || Litter(job, luck, d)
  {
  }

  ghost predicate OnlyLitter(job: Job, luck: Luck, extra: Folder)
  {
    forall d :: d in extra ==> Litter(job, luck, d)
  }

  /** Each file that is stuck is in the target, and of it the source has only what a broken put-back spilled. */
  ghost predicate StuckAt(job: Job, luck: Luck, back: Folder, src: Folder, tgt: Folder)
  {
    && (forall n :: n in StuckFiles(job, luck) ==> n in back && job.Dst(n) in tgt && tgt[job.Dst(n)] == back[n])
    && SourceAt(back, src, StuckFiles(job, luck),
                map n | n in StuckFiles(job, luck) && luck.back(n).Left? :: luck.back(n).junk)
  }

  // -------------------------------------------------------------- the filesystem

  /** A failed move or copy leaves nothing, or its broken-off bytes. */
  ghost function Debris(a: Attempt, d: string): Folder
  {
    if a.Left? then map[d := a.junk] else map[]
  }

  class Inbox {
    var disk: Disk

    method MoveFile(job: Job, n: string, a: Attempt)
      requires job.source in disk && job.target in disk && job.source != job.target && n in disk[job.source]
      modifies this
      ensures var src, tgt := old(disk)[job.source], old(disk)[job.target];
        disk == match a
                case Done => old(disk)[job.source := src - {n}][job.target := tgt[job.Dst(n) := src[n]]]
                case Refused => old(disk)
                case Left(junk) => old(disk)[job.target := tgt[job.Dst(n) := junk]]
    {
      var src, tgt := disk[job.source], disk[job.target];
      match a
      case Done => disk := disk[job.source := src - {n}][job.target := tgt[job.Dst(n) := src[n]]];
      case Refused =>
      case Left(junk) => disk := disk[job.target := tgt[job.Dst(n) := junk]];
    }

    method MoveBack(job: Job, n: string, a: Attempt)
      requires job.source in disk && job.target in disk && job.source != job.target && job.Dst(n) in disk[job.target]
      modifies this
      ensures var src, tgt := old(disk)[job.source], old(disk)[job.target];
        disk == match a
                case Done => old(disk)[job.source := src[n := tgt[job.Dst(n)]]][job.target := tgt - {job.Dst(n)}]
                case Refused => old(disk)
                case Left(junk) => old(disk)[job.source := src[n := junk]]
    {
      var src, tgt := disk[job.source], disk[job.target];
      match a
      case Done => disk := disk[job.source := src[n := tgt[job.Dst(n)]]][job.target := tgt - {job.Dst(n)}];
      case Refused =>
      case Left(junk) => disk := disk[job.source := src[n := junk]];
    }

    method CopyCover(job: Job, n: string, a: Attempt)
      requires job.source in disk && job.target in disk && job.source != job.target && n in disk[job.source]
      modifies this
      ensures var src, tgt := old(disk)[job.source], old(disk)[job.target];
        disk == match a
                case Done => old(disk)[job.target := tgt[n := src[n]]]
                case Refused => old(disk)
                case Left(junk) => old(disk)[job.target := tgt[n := junk]]
    {
      var src, tgt := disk[job.source], disk[job.target];
      match a
      case Done => disk := disk[job.target := tgt[n := src[n]]];
      case Refused =>
      case Left(junk) => disk := disk[job.target := tgt[n := junk]];
    }

    /** The files moved, in order, up to the first that will not move. */
    method MoveAll(job: Job, luck: Luck) returns (i: nat, ghost extra: Folder)
      requires job.Ready(disk) && job.Apart() && job.target in disk && disk[job.target] == map[]
      modifies this
      ensures i == FirstBad(job.names, BadMove(luck))
      ensures OthersSame(job, old(disk), disk) && job.source in disk && job.target in disk
      ensures SourceAt(old(disk)[job.source], disk[job.source], Names(job.names[..i]), map[])
      ensures TargetAt(job, old(disk)[job.source], disk[job.target], Names(job.names[..i]), map[], extra)
      ensures (i == |job.names| ==> extra == map[]) && OnlyLitter(job, luck, extra)
    {
      hide OthersSame;
      hide TargetAt;
      hide OnlyLitter;
      hide SourceAt;
      hide Job.Apart;
      hide NoneBad;
      hide FirstBad;
      OthersStart(job, disk);
      ghost var was := disk[job.source];
      NoLitter(job, luck);
      NoneBadYet(job.names, BadMove(luck));
      i, extra := 0, map[];
      NothingMoved(job, was, disk[job.target]);
      while i < |job.names|
        invariant i <= |job.names| && NoneBad(job.names, BadMove(luck), i)
        invariant OthersSame(job, old(disk), disk) && job.source in disk && job.target in disk
        invariant SourceAt(was, disk[job.source], Names(job.names[..i]), map[])
        invariant TargetAt(job, was, disk[job.target], Names(job.names[..i]), map[], map[]) && extra == map[]
      {
        extra := MoveNext(job, luck, i, was, old(disk));
        if luck.move(job.names[i]) != Done {
          FirstBadIs(job.names, BadMove(luck), i);
          MoveLitter(job, luck, i);
          return;
        }
        OneMoreGood(job.names, BadMove(luck), i);
        i := i + 1;
      }
      FirstBadIs(job.names, BadMove(luck), i);
    }

    /** One file moved, or not. */
    method MoveNext(job: Job, luck: Luck, i: nat, ghost was: Folder, ghost before: Disk) returns (ghost extra: Folder)
      requires job.source != job.target && job.Listed() && job.Apart() && i < |job.names| && job.names[i] in was
      requires OthersSame(job, before, disk) && job.source in disk && job.target in disk
      requires SourceAt(was, disk[job.source], Names(job.names[..i]), map[])
      requires TargetAt(job, was, disk[job.target], Names(job.names[..i]), map[], map[])
      modifies this
      ensures OthersSame(job, before, disk) && job.source in disk && job.target in disk
      ensures var a := luck.move(job.names[i]);
        var moved := Names(job.names[..if a == Done then i + 1 else i]);
        && SourceAt(was, disk[job.source], moved, map[]) && TargetAt(job, was, disk[job.target], moved, map[], extra)
        && extra == Debris(a, job.Dst(job.names[i]))
    {
      hide OthersSame;
      hide TargetAt;
      hide SourceAt;
      var n := job.names[i];
      ghost var moved := Names(job.names[..i]);
      NextName(job, i);
      ghost var src, tgt := disk[job.source], disk[job.target];
      GoneOne(was, src, moved, n);
      OthersStay(job, before, disk, src - {n}, tgt[job.Dst(n) := src[n]]);
      OthersStay(job, before, disk, src, tgt[job.Dst(n) := luck.move(n).Junk()]);
      MoveFile(job, n, luck.move(n));
      if luck.move(n).Left? {
        PutBeside(job, was, tgt, moved, map[], map[], job.Dst(n), luck.move(n).junk);
      } else if luck.move(n) == Done {
        MoveOne(job, was, tgt, moved, map[], n);
      }
      extra := Debris(luck.move(n), job.Dst(n));
    }

    /** The covers copied, in order, up to the first that will not copy. */
    method CopyCovers(job: Job, luck: Luck, ghost was: Folder) returns (i: nat, ghost extra: Folder)
      requires job.source in disk && job.target in disk && job.source != job.target && job.Apart()
      requires forall c :: c in job.covers ==> c in was && c !in job.names
      requires SourceAt(was, disk[job.source], Names(job.names), map[])
      requires TargetAt(job, was, disk[job.target], Names(job.names), map[], map[])
      modifies this
      ensures i == FirstBad(job.covers, BadCopy(luck))
      ensures OthersSame(job, old(disk), disk) && job.source in disk
      ensures job.target in disk && disk[job.source] == old(disk)[job.source]
      ensures TargetAt(job, was, disk[job.target], Names(job.names), map[], extra)
      ensures (i == |job.covers| ==> extra == CopiesOf(job.covers, was)) && OnlyLitter(job, luck, extra)
    {
      hide TargetAt;
      hide SourceAt;
      hide OthersSame;
      hide Job.Apart;
      hide NoneBad;
      hide FirstBad;
      hide CopiesOf;
      hide OnlyLitter;
      OthersStart(job, disk);
      NoLitter(job, luck);
      NoCopies(job.covers, was);
      NoneBadYet(job.covers, BadCopy(luck));
      ghost var src := disk[job.source];
      i, extra := 0, map[];
      while i < |job.covers|
        invariant i <= |job.covers| && NoneBad(job.covers, BadCopy(luck), i)
        invariant OthersSame(job, old(disk), disk) && job.source in disk
        invariant job.target in disk && disk[job.source] == src
        invariant TargetAt(job, was, disk[job.target], Names(job.names), map[], extra)
        invariant extra == CopiesOf(job.covers[..i], was) && OnlyLitter(job, luck, extra)
      {
        var c := job.covers[i];
        ghost var tgt := disk[job.target];
        CoverStays(job, was, src, c);
        OthersStay(job, old(disk), disk, src, tgt[c := was[c]]);
        OthersStay(job, old(disk), disk, src, tgt[c := luck.copy(c).Junk()]);
        CopyCover(job, c, luck.copy(c));
        if luck.copy(c) != Done {
          FirstBadIs(job.covers, BadCopy(luck), i);
          if luck.copy(c).Left? {
            PutCover(job, was, tgt, extra, c, luck.copy(c).junk);
            CoverLitter(job, luck, extra, c, luck.copy(c).junk);
            extra := extra[c := luck.copy(c).junk];
          }
          return;
        }
        PutCover(job, was, tgt, extra, c, was[c]);
        CopiesLonger(job.covers, was, i);
        CoverLitter(job, luck, extra, c, was[c]);
        OneMoreGood(job.covers, BadCopy(luck), i);
        extra := extra[c := was[c]];
        i := i + 1;
      }
      FirstBadIs(job.covers, BadCopy(luck), i);
      assert job.covers[..i] == job.covers;
    }

    method WriteSheet(job: Job, n: string, b: Bytes)
      requires job.target in disk
      modifies this
      ensures disk == old(disk)[job.target := old(disk)[job.target][job.Dst(n) := b]]
    {
      disk := disk[job.target := disk[job.target][job.Dst(n) := b]];
    }

    /** One sheet recorded and rewritten, as far as that goes. */
    method RewriteSheet(job: Job, luck: Luck, n: string, ghost keys: set<string>, recorded: map<string, Bytes>,
                        ghost was: Folder, ghost until: Folder, ghost extra: Folder, ghost before: Disk)
      returns (saved: map<string, Bytes>, ghost sheets: Folder)
      requires job.source != job.target && job.Apart() && n in job.names && n !in keys
      requires Rewriting(job, luck, was, before, disk, keys, recorded, until, extra)
      modifies this
      ensures Rewriting(job, luck, was, before, disk, keys + if luck.rewrite(n).Unopened? then {} else {n},
                        saved, sheets, extra)
    {
      hide TargetAt;
      hide OthersSame;
      hide Holding;
      hide SheetsHold;
      hide Job.Apart;
      var w := luck.rewrite(n);
      saved, sheets := recorded, until;
      if !w.Unopened? {
        ghost var tgt := disk[job.target];
        MovedLies(job, was, tgt, Names(job.names), until, extra, n);
        SheetRecorded(luck, was, recorded, until, n);
        saved := saved[n := disk[job.target][job.Dst(n)]];
        if w.Rewritten? || w.Broken? {
          OthersStay(job, before, disk, disk[job.source], tgt[job.Dst(n) := Altered(w, [])]);
          WriteSheet(job, n, Altered(w, []));
          Overwrite(job, was, tgt, Names(job.names), until, extra, n, Altered(w, []));
          sheets := sheets[n := Altered(w, [])];
        }
      }
    }

    /** The sheets recorded and rewritten, in order, up to the first that fails. */
    method RewriteSheets(job: Job, luck: Luck, ghost was: Folder, ghost extra: Folder)
      returns (i: nat, saved: map<string, Bytes>, ghost sheets: Folder)
      requires job.source in disk && job.target in disk && job.source != job.target && job.Apart() && job.Listed()
      requires TargetAt(job, was, disk[job.target], Names(job.names), map[], extra)
      modifies this
      ensures i == FirstBad(job.names, BadRewrite(job, luck))
      ensures OthersSame(job, old(disk), disk) && job.source in disk && job.target in disk
      ensures disk[job.source] == old(disk)[job.source]
      ensures TargetAt(job, was, disk[job.target], Names(job.names), sheets, extra)
      ensures saved.Keys == SheetsTo(job, luck, i)
      ensures SheetsHold(luck, was, saved, sheets)
    {
      hide Rewriting;
      hide NoneBad;
      hide FirstBad;
      hide Job.Sheet;
      i, saved, sheets := 0, map[], map[];
      RewritingStarts(job, luck, was, disk, extra);
      NoneBadYet(job.names, BadRewrite(job, luck));
      while i < |job.names|
        invariant i <= |job.names| && NoneBad(job.names, BadRewrite(job, luck), i)
        invariant Rewriting(job, luck, was, old(disk), disk, SheetsAmong(job, job.names[..i]), saved, sheets, extra)
      {
        SheetsLonger(job, i);
        ghost var keys := SheetsAmong(job, job.names[..i]);
        assert keys + {} == keys;
        if job.Sheet(job.names[i]) {
          saved, sheets := RewriteSheet(job, luck, job.names[i], keys, saved, was, sheets, extra, old(disk));
          if Fails(luck.rewrite(job.names[i])) {
            FirstBadIs(job.names, BadRewrite(job, luck), i);
            RewritingMeans(job, luck, was, old(disk), disk, SheetsTo(job, luck, i), saved, sheets, extra);
            return;
          }
        }
        OneMoreGood(job.names, BadRewrite(job, luck), i);
        i := i + 1;
      }
      FirstBadIs(job.names, BadRewrite(job, luck), i);
      assert SheetsTo(job, luck, i) == SheetsAmong(job, job.names[..i]);
      RewritingMeans(job, luck, was, old(disk), disk, SheetsTo(job, luck, i), saved, sheets, extra);
    }

    /** The recorded sheets written back, as far as that goes. */
    method RestoreSheets(job: Job, luck: Luck, saved: map<string, Bytes>, ghost was: Folder, ghost moved: set<string>,
                         ghost start: Folder, ghost extra: Folder) returns (ghost sheets: Folder)
      requires job.source in disk && job.target in disk && job.source != job.target
      requires job.Apart() && MovedAmong(job, moved)
      requires TargetAt(job, was, disk[job.target], moved, start, extra)
      requires forall n :: n in saved ==> n in moved && n in was && saved[n] == was[n]
      modifies this
      ensures OthersSame(job, old(disk), disk) && job.source in disk
      ensures job.target in disk && disk[job.source] == old(disk)[job.source]
      ensures TargetAt(job, was, disk[job.target], moved, sheets, extra)
      ensures RestoredBut(luck, was, saved, {}, start, sheets)
    {
      hide TargetAt;
      hide Holding;
      hide OthersSame;
      OthersStart(job, disk);
      ghost var src := disk[job.source];
      var todo := saved.Keys;
      sheets := start;
      while todo != {}
        invariant todo <= saved.Keys
        invariant OthersSame(job, old(disk), disk) && job.source in disk
        invariant job.target in disk && disk[job.source] == src
        invariant TargetAt(job, was, disk[job.target], moved, sheets, extra)
        invariant RestoredBut(luck, was, saved, todo, start, sheets)
        decreases |todo|
      {
        var n :| n in todo;
        ghost var tgt := disk[job.target];
        RestoredOne(luck, was, saved, todo, start, sheets, n);
        if !luck.restore(n).Refused? {
          var b := AfterRestore(luck.restore(n), [], saved[n]);
          OthersStay(job, old(disk), disk, src, tgt[job.Dst(n) := b]);
          WriteSheet(job, n, b);
          Overwrite(job, was, tgt, moved, sheets, extra, n, b);
          sheets := sheets[n := b];
        }
        todo := todo - {n};
      }
    }

    /** The files put back, last first; those that will not go stay where they are. */
    method PutBackAll(job: Job, luck: Luck, k: nat, ghost back: Folder, ghost extra: Folder)
      returns (stuck: seq<string>)
      requires job.source in disk && job.target in disk && job.source != job.target && job.Apart() && job.Listed()
      requires k <= |job.names|
      requires SourceAt(back, disk[job.source], Names(job.names[..k]), map[])
      requires TargetAt(job, back, disk[job.target], Names(job.names[..k]), map[], extra)
      modifies this
      ensures OthersSame(job, old(disk), disk) && job.target in disk
      ensures SourceAt(back, disk[job.source], StuckFrom(job, luck, 0, k), Spilt(luck, StuckFrom(job, luck, 0, k)))
      ensures TargetAt(job, back, disk[job.target], StuckFrom(job, luck, 0, k), map[], extra)
      ensures forall d :: d in stuck <==> exists n :: n in StuckFrom(job, luck, 0, k) && job.Dst(n) == d
    {
      hide TargetAt;
      hide SourceAt;
      hide OthersSame;
      hide StillIn;
      hide Spilt;
      stuck := [];
      var i := k;
      AllStillIn(job, luck, k);
      OthersStart(job, disk);
      while i > 0
        invariant 0 <= i <= k
        invariant job.source in disk && job.target in disk && OthersSame(job, old(disk), disk)
        invariant SourceAt(back, disk[job.source], StillIn(job, luck, i, k), Spilt(luck, StuckFrom(job, luck, i, k)))
        invariant TargetAt(job, back, disk[job.target], StillIn(job, luck, i, k), map[], extra)
        invariant forall d :: d in stuck <==> exists n :: n in StuckFrom(job, luck, i, k) && job.Dst(n) == d
      {
        i := i - 1;
        var n := job.names[i];
        ghost var src, tgt := disk[job.source], disk[job.target];
        StillInStep(job, luck, i, k);
        MovedLies(job, back, tgt, StillIn(job, luck, i + 1, k), map[], extra, n);
        OthersStay(job, old(disk), disk, src[n := tgt[job.Dst(n)]], tgt - {job.Dst(n)});
        OthersStay(job, old(disk), disk, src[n := luck.back(n).Junk()], tgt);
        MoveBack(job, n, luck.back(n));
        if luck.back(n) != Done {
          stuck := stuck + [job.Dst(n)];
          SpillOne(luck, back, src, StillIn(job, luck, i, k), StuckFrom(job, luck, i + 1, k), n);
        } else {
          TakeOut(job, back, tgt, StillIn(job, luck, i + 1, k), map[], extra, n);
          ComeBack(back, src, StillIn(job, luck, i + 1, k), Spilt(luck, StuckFrom(job, luck, i + 1, k)), n);
        }
      }
      NoneLeftToTry(job, luck, k);
    }

    method ClearTarget(job: Job, luck: Luck)
      requires job.target in disk && job.source in disk && job.source != job.target
      modifies this
      ensures OthersSame(job, old(disk), disk) && disk[job.source] == old(disk)[job.source]
      ensures job.target in disk <==> !luck.clears
      ensures job.target in disk ==> disk[job.target].Keys <= old(disk)[job.target].Keys
    {
      if luck.clears {
        disk := disk - {job.target};
      } else {
        disk := disk[job.target := map d | d in disk[job.target] && d in luck.leaves :: disk[job.target][d]];
      }
    }

    /** Moves, copies and rewrites; how far it got is returned for the undoing. */
    method TryAll(job: Job, luck: Luck)
      returns (ok: bool, k: nat, saved: map<string, Bytes>, ghost sheets: Folder, ghost extra: Folder)
      requires job.Ready(disk) && job.Apart() && job.target in disk && disk[job.target] == map[]
      modifies this
      ensures OthersSame(job, old(disk), disk) && job.target in disk
      ensures (ok <==> AllGoes(job, luck)) && (ok ==> k == |job.names|)
      ensures k == FirstBad(job.names, BadMove(luck))
      ensures SourceAt(old(disk)[job.source], disk[job.source], Names(job.names[..k]), map[])
      ensures TargetAt(job, old(disk)[job.source], disk[job.target], Names(job.names[..k]), sheets, extra)
      ensures SheetsHold(luck, old(disk)[job.source], saved, sheets)
      ensures ok ==> saved.Keys == SheetsAmong(job, job.names) && extra == CopiesOf(job.covers, old(disk)[job.source])
      ensures (!ok ==> saved.Keys == Recorded(job, luck)) && OnlyLitter(job, luck, extra)
    {
      hide TargetAt;
      hide SourceAt;
      hide OnlyLitter;
      hide SheetsHold;
      hide SheetsAmong;
      hide SheetsTo;
      hide CopiesOf;
      hide Job.Apart;
      NoSheets(job, luck, disk[job.source]);
      ghost var was := disk[job.source];
      saved, sheets := map[], map[];
      k, extra := MoveAll(job, luck);
      if k < |job.names| {
        ok := false;
        return;
      }
      assert job.names[..k] == job.names;
      ok, saved, sheets, extra := CopyAndRewrite(job, luck, was);
    }

    /** The steps after the moves. */
    method CopyAndRewrite(job: Job, luck: Luck, ghost was: Folder)
      returns (ok: bool, saved: map<string, Bytes>, ghost sheets: Folder, ghost extra: Folder)
      requires job.source in disk && job.target in disk && job.source != job.target && job.Apart() && job.Listed()
      requires forall c :: c in job.covers ==> c in was && c !in job.names
      requires FirstBad(job.names, BadMove(luck)) == |job.names|
      requires SourceAt(was, disk[job.source], Names(job.names), map[])
      requires TargetAt(job, was, disk[job.target], Names(job.names), map[], map[])
      modifies this
      ensures OthersSame(job, old(disk), disk) && job.target in disk && disk[job.source] == old(disk)[job.source]
      ensures ok <==> AllGoes(job, luck)
      ensures TargetAt(job, was, disk[job.target], Names(job.names), sheets, extra)
      ensures SheetsHold(luck, was, saved, sheets) && OnlyLitter(job, luck, extra)
      ensures ok ==> saved.Keys == SheetsAmong(job, job.names) && extra == CopiesOf(job.covers, was)
      ensures !ok ==> saved.Keys == Recorded(job, luck)
    {
      hide TargetAt;
      hide SourceAt;
      hide OnlyLitter;
      hide SheetsHold;
      hide SheetsAmong;
      hide CopiesOf;
      hide Job.Apart;
      hide Job.Listed;
      hide Names;
      hide Litter;
      NoSheets(job, luck, was);
      saved, sheets := map[], map[];
      var c;
      c, extra := CopyCovers(job, luck, was);
      if c < |job.covers| {
        ok := false;
        return;
      }
      var i;
      i, saved, sheets := RewriteSheets(job, luck, was, extra);
      ok := i == |job.names|;
      assert job.names[..|job.names|] == job.names;
    }

    /** The sheets written back, the files put back, and the folder removed when none is left in it. */
    method Undo(job: Job, luck: Luck, k: nat, saved: map<string, Bytes>, ghost was: Folder, ghost sheets: Folder,
                ghost extra: Folder)
      returns (r: Result)
      requires job.source in disk && job.target in disk && job.source != job.target && job.Apart() && job.Listed()
      requires k == FirstBad(job.names, BadMove(luck)) && saved.Keys == Recorded(job, luck)
      requires SourceAt(was, disk[job.source], Names(job.names[..k]), map[])
      requires TargetAt(job, was, disk[job.target], Names(job.names[..k]), sheets, extra)
      requires SheetsHold(luck, was, saved, sheets) && Recorded(job, luck) <= Names(job.names[..k])
      requires OnlyLitter(job, luck, extra)
      modifies this
      ensures OthersSame(job, old(disk), disk) && (r.Stuck? || r.PutBack?)
      ensures Undone(job, luck, AsRestored(job, luck, was), disk, r)
    {
      hide Names;
      hide SheetsHold;
      hide TargetAt;
      hide SourceAt;
      hide Recorded;
      hide AsRestored;
      hide OnlyLitter;
      hide Litter;
      hide StuckAt;
      hide StuckFiles;
      hide StuckFrom;
      hide Spilt;
      ghost var back := AsRestored(job, luck, was);
      SavedMoved(job, luck, was, k, saved, sheets);
      ghost var now := RestoreSheets(job, luck, saved, was, Names(job.names[..k]), sheets, extra);
      ReadAsRestored(job, luck, was, disk[job.source], disk[job.target], k, saved, sheets, now, extra);
      r := Finish(job, luck, k, back, extra);
    }

    /** The files put back, and the folder removed when none is left in it. */
    method Finish(job: Job, luck: Luck, k: nat, ghost back: Folder, ghost extra: Folder) returns (r: Result)
      requires job.source in disk && job.target in disk && job.source != job.target && job.Apart() && job.Listed()
      requires k == FirstBad(job.names, BadMove(luck)) && OnlyLitter(job, luck, extra)
      requires SourceAt(back, disk[job.source], Names(job.names[..k]), map[])
      requires TargetAt(job, back, disk[job.target], Names(job.names[..k]), map[], extra)
      modifies this
      ensures OthersSame(job, old(disk), disk) && (r.Stuck? || r.PutBack?)
      ensures Undone(job, luck, back, disk, r)
    {
      hide TargetAt;
      hide SourceAt;
      hide OnlyLitter;
      hide Litter;
      hide StuckAt;
      hide StuckFiles;
      hide StuckFrom;
      hide Spilt;
      hide Names;
      var stuck := PutBackAll(job, luck, k, back, extra);
      NoneStuck(job, luck, stuck);
      if stuck != [] {
        StuckThere(job, luck, back, disk[job.source], disk[job.target], extra);
        RestIsLitter(job, luck, back, disk[job.target], StuckFrom(job, luck, 0, k), extra, stuck);
        return Stuck(stuck);
      }
      AllStillIn(job, luck, k);
      AllThere(back, disk[job.source]);
      RestIsLitter(job, luck, back, disk[job.target], StuckFrom(job, luck, 0, k), extra, stuck);
      ClearTarget(job, luck);
      r := PutBack;
    }

    /** All or nothing: the job done, or undone as far as the filesystem lets it. */
    method MoveIn(job: Job, luck: Luck) returns (r: Result)
      requires job.Ready(disk) && job.Apart()
      modifies this
      ensures Fate(job, luck, old(disk), disk, r)
    {
      hide TargetAt;
      hide SourceAt;
      hide Recorded;
      hide AllGoes;
      hide OnlyLitter;
      hide Undone;
      hide Rewrites;
      hide AsRestored;
      hide SheetsHold;
      hide SheetsAmong;
      hide CopiesOf;
      if !luck.makes || job.target in disk {
        return NotMade;
      }
      hide OthersSame;
      ghost var was := disk[job.source];
      disk := disk[job.target := map[]];
      var ok, k, saved;
      ghost var sheets, extra;
      ok, k, saved, sheets, extra := TryAll(job, luck);
      OthersVia(job, old(disk), disk);
      if ok {
        assert job.names[..k] == job.names;
        AllRewritten(job, luck, was, disk[job.target], saved, sheets, extra);
        return Moved;
      }
      RecordedMoved(job, luck);
      ghost var tried := disk;
      r := Undo(job, luck, k, saved, was, sheets, extra);
      OthersFollow(job, old(disk), tried, disk);
    }
  }

  lemma OthersVia(job: Job, before: Disk, now: Disk)
    requires job.target !in before && OthersSame(job, before[job.target := map[]], now)
    ensures job.source in now && OthersSame(job, before, now)
  {
  }

  lemma OthersFollow(job: Job, before: Disk, now: Disk, after: Disk)
    requires OthersSame(job, before, now) && OthersSame(job, now, after)
    ensures job.source in after && OthersSame(job, before, after)
  {
  }

  /** The files among names[i..k] that cannot be put back. */
  ghost function StuckFrom(job: Job, luck: Luck, i: nat, k: nat): set<string>
    requires i <= k <= |job.names|
  {
    set n | n in job.names[i..k] && luck.back(n) != Done
  }

  /** What is in the target once names[i..k] have been tried. */
  ghost function StillIn(job: Job, luck: Luck, i: nat, k: nat): set<string>
    requires i <= k <= |job.names|
  {
    Names(job.names[..i]) + StuckFrom(job, luck, i, k)
  }

  ghost function Spilt(luck: Luck, stuck: set<string>): Folder
  {
    map n | n in stuck && luck.back(n).Left? :: luck.back(n).junk
  }

  lemma AllStillIn(job: Job, luck: Luck, k: nat)
    requires k <= |job.names|
    ensures StuckFrom(job, luck, k, k) == {} && StillIn(job, luck, k, k) == Names(job.names[..k])
    ensures Spilt(luck, {}) == map[]
  {
  }

  lemma NoneLeftToTry(job: Job, luck: Luck, k: nat)
    requires k <= |job.names|
    ensures StillIn(job, luck, 0, k) == StuckFrom(job, luck, 0, k)
  {
  }

  lemma StillInStep(job: Job, luck: Luck, i: nat, k: nat)
    requires job.Listed() && i < k <= |job.names|
    ensures var n := job.names[i];
      && n in StillIn(job, luck, i + 1, k) && MovedAmong(job, StillIn(job, luck, i + 1, k))
      && n !in StuckFrom(job, luck, i + 1, k) && n in job.names
      && StillIn(job, luck, i, k) == (if luck.back(n) == Done then StillIn(job, luck, i + 1, k) - {n}
                                      else StillIn(job, luck, i + 1, k))
      && StuckFrom(job, luck, i, k) == (if luck.back(n) == Done then StuckFrom(job, luck, i + 1, k)
                                        else StuckFrom(job, luck, i + 1, k) + {n})
  {
    var n := job.names[i];
    assert job.names[..i + 1] == job.names[..i] + [n] && job.names[i..k] == [n] + job.names[i + 1..k];
    forall m | m in StuckFrom(job, luck, i + 1, k) || m in job.names[..i] ensures m != n && m in job.names {
    }
  }

  lemma OthersStart(job: Job, d: Disk)
    requires job.source in d
    ensures OthersSame(job, d, d)
  {
  }

  lemma OthersStay(job: Job, before: Disk, now: Disk, src: Folder, tgt: Folder)
    requires OthersSame(job, before, now)
    ensures OthersSame(job, before, now[job.source := src]) && OthersSame(job, before, now[job.target := tgt])
    ensures OthersSame(job, before, now[job.source := src][job.target := tgt])
  {
  }

  /** A file that would not go back, with what that spilled. */
  lemma SpillOne(luck: Luck, back: Folder, src: Folder, within: set<string>, stuck: set<string>, n: string)
    requires SourceAt(back, src, within, Spilt(luck, stuck)) && n in within && n !in stuck && luck.back(n) != Done
    ensures luck.back(n).Refused? ==> SourceAt(back, src, within, Spilt(luck, stuck + {n}))
    ensures luck.back(n).Left? ==> SourceAt(back, src[n := luck.back(n).junk], within, Spilt(luck, stuck + {n}))
  {
  }

  lemma ComeBack(back: Folder, src: Folder, within: set<string>, spill: Folder, n: string)
    requires SourceAt(back, src, within, spill) && n in within && n in back
    ensures SourceAt(back, src[n := back[n]], within - {n}, spill)
  {
  }

  ghost function SheetsAmong(job: Job, ns: seq<string>): set<string>
  {
    set n | n in ns && job.Sheet(n)
  }

  lemma NoSheets(job: Job, luck: Luck, was: Folder)
    ensures SheetsAmong(job, job.names[..0]) == {} && SheetsHold(luck, was, map[], map[])
  {
  }

  lemma SheetsLonger(job: Job, i: nat)
    requires job.Listed() && i < |job.names|
    ensures SheetsAmong(job, job.names[..i + 1])
      == SheetsAmong(job, job.names[..i]) + if job.Sheet(job.names[i]) then {job.names[i]} else {}
    ensures job.names[i] !in SheetsAmong(job, job.names[..i])
  {
    assert job.names[..i + 1] == job.names[..i] + [job.names[i]];
  }

  /** One more sheet recorded, and then rewritten or not. */
  lemma SheetRecorded(luck: Luck, was: Folder, saved: map<string, Bytes>, sheets: Folder, n: string)
    requires SheetsHold(luck, was, saved, sheets) && n in was && n !in saved
    ensures Holding(was, sheets, n) == was[n]
    ensures var w, more := luck.rewrite(n), saved[n := was[n]];
      if w.Rewritten? || w.Broken? then SheetsHold(luck, was, more, sheets[n := Altered(w, [])])
      else SheetsHold(luck, was, more, sheets)
  {
  }

  /** The sheets written back so far, all but those still to do. */
  ghost predicate RestoredBut(luck: Luck, was: Folder, saved: map<string, Bytes>, todo: set<string>, start: Folder,
                              sheets: Folder)
  {
    forall n :: n in was ==>
      Holding(was, sheets, n)
      == if n in saved && n !in todo then AfterRestore(luck.restore(n), Holding(was, start, n), was[n])
         else Holding(was, start, n)
  }

  lemma RestoredOne(luck: Luck, was: Folder, saved: map<string, Bytes>, todo: set<string>, start: Folder,
                    sheets: Folder, n: string)
    requires RestoredBut(luck, was, saved, todo, start, sheets)
    requires n in todo && n in saved && n in was && saved[n] == was[n]
    ensures var a := luck.restore(n);
      RestoredBut(luck, was, saved, todo - {n}, start,
                  if a.Refused? then sheets else sheets[n := AfterRestore(a, [], saved[n])])
  {
  }

  /** The sheets recorded by a pass over the files that stops at number i. */
  ghost function SheetsTo(job: Job, luck: Luck, i: nat): set<string>
    requires i <= |job.names|
  {
    SheetsAmong(job, job.names[..i])
    + if i < |job.names| && !luck.rewrite(job.names[i]).Unopened? then {job.names[i]} else {}
  }

  /** Every recorded sheet was recorded as it was, and holds what rewriting made of it. */
  ghost predicate SheetsHold(luck: Luck, was: Folder, saved: map<string, Bytes>, sheets: Folder)
  {
    && (forall n :: n in saved ==>
          n in was && saved[n] == was[n] && Holding(was, sheets, n) == Altered(luck.rewrite(n), was[n]))
    && (forall n :: n in sheets ==> n in saved)
  }

  /** The sheets with these names have been recorded, and nothing but sheets in the target has changed. */
  ghost predicate Rewriting(job: Job, luck: Luck, was: Folder, before: Disk, now: Disk, keys: set<string>,
                            saved: map<string, Bytes>, sheets: Folder, extra: Folder)
  {
    && OthersSame(job, before, now) && job.source in before && job.source in now && job.target in now
    && now[job.source] == before[job.source]
    && TargetAt(job, was, now[job.target], Names(job.names), sheets, extra)
    && saved.Keys == keys && SheetsHold(luck, was, saved, sheets)
  }

  lemma RewritingStarts(job: Job, luck: Luck, was: Folder, d: Disk, extra: Folder)
    requires job.source in d && job.target in d && TargetAt(job, was, d[job.target], Names(job.names), map[], extra)
    ensures Rewriting(job, luck, was, d, d, SheetsAmong(job, job.names[..0]), map[], map[], extra)
  {
    hide TargetAt;
    OthersStart(job, d);
    NoSheets(job, luck, was);
  }

  lemma RewritingMeans(job: Job, luck: Luck, was: Folder, before: Disk, now: Disk, keys: set<string>,
                       saved: map<string, Bytes>, sheets: Folder, extra: Folder)
    requires Rewriting(job, luck, was, before, now, keys, saved, sheets, extra)
    ensures OthersSame(job, before, now) && job.source in before && job.source in now && job.target in now
    ensures now[job.source] == before[job.source]
    ensures TargetAt(job, was, now[job.target], Names(job.names), sheets, extra)
    ensures saved.Keys == keys && SheetsHold(luck, was, saved, sheets)
  {
    hide TargetAt;
    hide SheetsHold;
  }

  lemma OneMoreGood(ns: seq<string>, bad: string -> bool, i: nat)
    requires NoneBad(ns, bad, i) && i < |ns| && !bad(ns[i])
    ensures NoneBad(ns, bad, i + 1)
  {
  }

  lemma NoneBadYet(ns: seq<string>, bad: string -> bool)
    ensures NoneBad(ns, bad, 0)
  {
  }

  lemma {:induction false} FirstBadIs(ns: seq<string>, bad: string -> bool, i: nat)
    requires NoneBad(ns, bad, i) && (i < |ns| ==> bad(ns[i]))
    ensures FirstBad(ns, bad) == i
  {
    if i > 0 {
      FirstBadIs(ns[1..], bad, i - 1);
    }
  }

  /** When all has gone well the sheets are as rewriting made them. */
  lemma AllRewritten(job: Job, luck: Luck, was: Folder, tgt: Folder, saved: map<string, Bytes>, sheets: Folder,
                     extra: Folder)
    requires TargetAt(job, was, tgt, Names(job.names), sheets, extra) && SheetsHold(luck, was, saved, sheets)
    requires saved.Keys == SheetsAmong(job, job.names)
    ensures TargetAt(job, was, tgt, Names(job.names), Rewrites(job, luck, was), extra)
  {
    forall n | n in Names(job.names)
      ensures n in was && Holding(was, sheets, n) == Holding(was, Rewrites(job, luck, was), n)
    {
    }
  }

  lemma RecordedMoved(job: Job, luck: Luck)
    ensures Recorded(job, luck) <= Names(job.names[..FirstBad(job.names, BadMove(luck))])
  {
    if FirstBad(job.names, BadMove(luck)) == |job.names| {
      assert job.names[..|job.names|] == job.names;
    }
  }

  lemma SavedMoved(job: Job, luck: Luck, was: Folder, k: nat, saved: map<string, Bytes>, sheets: Folder)
    requires k <= |job.names| && SheetsHold(luck, was, saved, sheets) && saved.Keys <= Names(job.names[..k])
    ensures MovedAmong(job, Names(job.names[..k]))
    ensures forall n :: n in saved ==> n in Names(job.names[..k]) && n in was && saved[n] == was[n]
  {
  }

  /** Once the sheets are written back, the disk part-way is a disk part-way to the restored files. */
  lemma ReadAsRestored(job: Job, luck: Luck, was: Folder, src: Folder, tgt: Folder, k: nat, saved: map<string, Bytes>,
                       start: Folder, now: Folder, extra: Folder)
    requires k <= |job.names| && SourceAt(was, src, Names(job.names[..k]), map[])
    requires TargetAt(job, was, tgt, Names(job.names[..k]), now, extra)
    requires SheetsHold(luck, was, saved, start) && RestoredBut(luck, was, saved, {}, start, now)
    requires saved.Keys == Recorded(job, luck) && Recorded(job, luck) <= Names(job.names[..k])
    ensures SourceAt(AsRestored(job, luck, was), src, Names(job.names[..k]), map[])
    ensures TargetAt(job, AsRestored(job, luck, was), tgt, Names(job.names[..k]), map[], extra)
  {
    hide TargetAt;
    hide SourceAt;
    hide RestoredBut;
    hide SheetsHold;
    forall n | n in was
      ensures n !in Names(job.names[..k]) ==> Restored(job, luck, was, n) == was[n]
      ensures n in Names(job.names[..k]) ==> Restored(job, luck, was, n) == Holding(was, now, n)
    {
      RestoredHolds(job, luck, was, saved, start, now, n);
    }
    ReadAs(job, was, AsRestored(job, luck, was), src, tgt, Names(job.names[..k]), now, extra);
  }

  lemma RestoredHolds(job: Job, luck: Luck, was: Folder, saved: map<string, Bytes>, start: Folder, now: Folder,
                      n: string)
    requires SheetsHold(luck, was, saved, start) && RestoredBut(luck, was, saved, {}, start, now)
    requires saved.Keys == Recorded(job, luck) && n in was
    ensures Restored(job, luck, was, n) == Holding(was, now, n)
  {
    hide Recorded;
  }

  lemma ReadAs(job: Job, was: Folder, back: Folder, src: Folder, tgt: Folder, moved: set<string>, sheets: Folder,
               extra: Folder)
    requires SourceAt(was, src, moved, map[]) && TargetAt(job, was, tgt, moved, sheets, extra)
    requires back.Keys == was.Keys
    requires forall n :: n in was && n !in moved ==> back[n] == was[n]
    requires forall n :: n in was && n in moved ==> back[n] == Holding(was, sheets, n)
    ensures SourceAt(back, src, moved, map[]) && TargetAt(job, back, tgt, moved, map[], extra)
  {
  }

  lemma StuckThere(job: Job, luck: Luck, back: Folder, src: Folder, tgt: Folder, extra: Folder)
    requires var k := FirstBad(job.names, BadMove(luck));
      && SourceAt(back, src, StuckFrom(job, luck, 0, k), Spilt(luck, StuckFrom(job, luck, 0, k)))
      && TargetAt(job, back, tgt, StuckFrom(job, luck, 0, k), map[], extra)
    ensures StuckAt(job, luck, back, src, tgt)
  {
    assert StuckFrom(job, luck, 0, FirstBad(job.names, BadMove(luck))) == StuckFiles(job, luck);
  }

  lemma NoneStuck(job: Job, luck: Luck, stuck: seq<string>)
    requires forall d :: d in stuck <==>
      exists n :: n in StuckFrom(job, luck, 0, FirstBad(job.names, BadMove(luck))) && job.Dst(n) == d
    ensures StuckFrom(job, luck, 0, FirstBad(job.names, BadMove(luck))) == StuckFiles(job, luck)
    ensures stuck == [] <==> StuckFiles(job, luck) == {}
  {
    var k := FirstBad(job.names, BadMove(luck));
    assert job.names[0..k] == job.names[..k];
    assert stuck != [] ==> stuck[0] in stuck;
    if StuckFiles(job, luck) != {} {
      var n :| n in StuckFrom(job, luck, 0, k);
      assert job.Dst(n) in stuck;
    }
  }

  lemma AllThere(back: Folder, src: Folder)
    requires SourceAt(back, src, {}, map[])
    ensures src == back
  {
  }

  // --------------------------------------------------------------- what it means

  /** The file's old bytes lie in the source under its name, or in the target under its new one. */
  ghost predicate Kept(job: Job, before: Disk, after: Disk, n: string)
    requires job.source in before && n in before[job.source] && job.source in after
  {
    || (n in after[job.source] && after[job.source][n] == before[job.source][n])
    || (job.target in after && job.Dst(n) in after[job.target]
        && after[job.target][job.Dst(n)] == before[job.source][n])
  }

  lemma OnlySheetsRecorded(job: Job, luck: Luck, n: string)
    ensures n in Recorded(job, luck) ==> job.Sheet(n)
  {
  }

  /** However a job ends, no file that is not a sheet to rewrite is lost. */
  lemma NothingLost(job: Job, luck: Luck, before: Disk, after: Disk, r: Result, n: string)
    requires job.Ready(before) && Fate(job, luck, before, after, r) && n in job.names && !job.Sheet(n)
    ensures job.source in after && Kept(job, before, after, n)
  {
    OnlySheetsRecorded(job, luck, n);
    hide Recorded;
    hide StuckFiles;
    hide Litter;
    hide AllGoes;
  }

  /** Nothing broke off part-way. */
  ghost predicate Clean(job: Job, luck: Luck)
  {
    forall n :: n in job.names ==> !luck.move(n).Left? && !luck.back(n).Left?
  }

  /** When no move broke off part-way, each file is in the source or in the target, and not in both. */
  lemma InOnePlace(job: Job, luck: Luck, before: Disk, after: Disk, r: Result, n: string)
    requires job.Ready(before) && job.Apart() && Fate(job, luck, before, after, r) && n in job.names && Clean(job, luck)
    ensures job.source in after
    ensures r.NotMade? || (n in after[job.source] <==> !(job.target in after && job.Dst(n) in after[job.target]))
  {
    hide Recorded;
    match r
    case Stuck(at) =>
      StuckInOnePlace(job, luck, AsRestored(job, luck, before[job.source]), after[job.source], after[job.target], at,
                      n);
    case PutBack => NoLitterOf(job, luck, n);
    case _ =>
  }

  lemma NoLitterOf(job: Job, luck: Luck, n: string)
    requires job.Apart() && n in job.names && Clean(job, luck)
    ensures !Litter(job, luck, job.Dst(n))
  {
  }

  lemma StuckInOnePlace(job: Job, luck: Luck, back: Folder, src: Folder, tgt: Folder, at: seq<string>, n: string)
    requires job.Apart() && n in job.names && n in back && Clean(job, luck) && StuckAt(job, luck, back, src, tgt)
    requires forall d :: d in at <==> exists m :: m in StuckFiles(job, luck) && job.Dst(m) == d
    requires forall d :: d in tgt ==> d in at || Litter(job, luck, d)
    ensures n in src <==> job.Dst(n) !in tgt
  {
    hide Litter;
    NoLitterOf(job, luck, n);
    assert StuckFiles(job, luck) <= Names(job.names);
    if n in StuckFiles(job, luck) {
      assert n !in src && job.Dst(n) in tgt;
    } else {
      assert n in src;
    }
  }

  /** The sheets that a failed job leaves other than they were. */
  ghost function Spoilt(job: Job, luck: Luck, was: Folder): set<string>
    requires forall n :: n in job.names ==> n in was
  {
    RecordedMoved(job, luck);
    set n | n in Recorded(job, luck)
            && AfterRestore(luck.restore(n), Altered(luck.rewrite(n), was[n]), was[n]) != was[n]
  }

  /**
   "The rip is as the ripper left it", the message of a job whose files were all put back, is true exactly
   when every sheet that was rewritten was also restored and the folder was cleared.
   */
  lemma MessageTrueIff(job: Job, luck: Luck, before: Disk, after: Disk, r: Result)
    requires job.Ready(before) && Fate(job, luck, before, after, r) && r.PutBack?
    ensures after == before <==> luck.clears && Spoilt(job, luck, before[job.source]) == {}
  {
    hide Litter;
    hide AllGoes;
    hide StuckFiles;
    hide AsRestored;
    hide Spoilt;
    RestoredUnlessSpoilt(job, luck, before[job.source]);
    SameDisk(job, before, after);
  }

  /** The sheets are as they were exactly when none is spoilt. */
  lemma RestoredUnlessSpoilt(job: Job, luck: Luck, was: Folder)
    requires forall n :: n in job.names ==> n in was
    ensures AsRestored(job, luck, was) == was <==> Spoilt(job, luck, was) == {}
  {
    hide AfterRestore;
    hide Altered;
    RecordedMoved(job, luck);
    hide Recorded;
    if Spoilt(job, luck, was) == {} {
      forall n | n in was ensures Restored(job, luck, was, n) == was[n] {
        assert n in Recorded(job, luck) ==> n !in Spoilt(job, luck, was);
      }
    }
    if AsRestored(job, luck, was) == was {
      forall n | n in Recorded(job, luck) ensures n !in Spoilt(job, luck, was) {
        assert n in was && was[n] == AsRestored(job, luck, was)[n] == Restored(job, luck, was, n);
      }
    }
  }

  /** A disk on which only the source may differ, and the target may have come, is the same if neither did. */
  lemma SameDisk(job: Job, before: Disk, after: Disk)
    requires OthersSame(job, before, after) && job.source in before && job.target !in before && job.source != job.target
    ensures after == before <==> job.target !in after && after[job.source] == before[job.source]
  {
  }

  // A rip of one sheet to be renamed: writing it breaks off, and writing it back is refused.

  ghost function SheetJob(): Job
  {
    Job("inbox", "inbox/disc", ["rip.cue"], map["rip.cue" := "disc.cue"], [])
  }

  ghost function SheetLuck(): Luck
  {
    Luck(true, n => Done, n => Done, n => Broken([1]), n => Refused, n => Done, true, {})
  }

  ghost function SheetDisk(): Disk
  {
    map["inbox" := map["rip.cue" := [0]]]
  }

  lemma SheetJobReady()
    ensures SheetJob().Ready(SheetDisk())
  {
  }

  lemma SheetRecordings()
    ensures var job, luck := SheetJob(), SheetLuck();
      && Recorded(job, luck) == {"rip.cue"} && FirstBad(job.names, BadRewrite(job, luck)) == 0
  {
    var job, luck := SheetJob(), SheetLuck();
    assert job.Sheet("rip.cue") by {
      assert "rip.cue" in job.renames;
    }
    FirstBadIs(job.names, BadMove(luck), 1);
    FirstBadIs(job.covers, BadCopy(luck), 0);
    FirstBadIs(job.names, BadRewrite(job, luck), 0);
    assert job.names[0] == "rip.cue";
  }

  lemma SheetSpoilt()
    ensures "rip.cue" in Spoilt(SheetJob(), SheetLuck(), SheetDisk()["inbox"])
  {
    SheetRecordings();
    hide Recorded;
  }

  lemma SheetJobEnds(after: Disk, r: Result)
    requires SheetJob().Ready(SheetDisk()) && Fate(SheetJob(), SheetLuck(), SheetDisk(), after, r)
    ensures r.PutBack? && after != SheetDisk()
  {
    var job, luck := SheetJob(), SheetLuck();
    SheetRecordings();
    SheetSpoilt();
    assert !AllGoes(job, luck);
    assert StuckFiles(job, luck) == {};
    hide Recorded;
    hide Spoilt;
    hide Litter;
    hide AsRestored;
    if r.PutBack? {
      MessageTrueIff(job, luck, SheetDisk(), after, r);
    }
  }

  /** However it is told, the job ends with the message that all is as it was, and with a sheet that is not. */
  lemma SpoiltSheetPutBack()
    ensures SheetJob().Ready(SheetDisk())
    ensures forall after, r :: Fate(SheetJob(), SheetLuck(), SheetDisk(), after, r) ==>
      r.PutBack? && after != SheetDisk()
  {
    SheetJobReady();
    forall after, r | Fate(SheetJob(), SheetLuck(), SheetDisk(), after, r)
      ensures r.PutBack? && after != SheetDisk()
    {
      SheetJobEnds(after, r);
    }
  }

  /** A job that fails, and whose undoing does not, leaves the disk exactly as it was. */
  lemma AllOrNothing(job: Job, luck: Luck, before: Disk, after: Disk, r: Result)
    requires job.Ready(before) && Fate(job, luck, before, after, r)
    requires luck.clears && forall n :: n in job.names ==> luck.back(n) == Done && luck.restore(n) == Done
    ensures !r.Moved? ==> after == before
  {
    RecordedMoved(job, luck);
    if r.PutBack? {
      assert Spoilt(job, luck, before[job.source]) == {};
      MessageTrueIff(job, luck, before, after, r);
    }
  }

  // ------------------------------------------------------- distinct names are needed

  /** The target after every file is moved, one after the other, whatever their names. */
  ghost function Arrived(job: Job, was: Folder, ns: seq<string>): Folder
    requires forall n :: n in ns ==> n in was
  {
    if ns == [] then map[]
    else Arrived(job, was, ns[..|ns| - 1])[job.Dst(ns[|ns| - 1]) := was[ns[|ns| - 1]]]
  }

  /** The target after the covers are copied too. */
  ghost function Filled(job: Job, was: Folder): Folder
    requires forall n :: n in job.names || n in job.covers ==> n in was
  {
    Arrived(job, was, job.names) + CopiesOf(job.covers, was)
  }

  ghost predicate Lossless(job: Job, was: Folder)
    requires forall n :: n in job.names || n in job.covers ==> n in was
  {
    forall n :: n in job.names ==> job.Dst(n) in Filled(job, was) && Filled(job, was)[job.Dst(n)] == was[n]
  }

  ghost predicate Covers(job: Job, was: Folder)
  {
    forall n :: n in job.names || n in job.covers ==> n in was
  }

  lemma {:induction false} ArrivedFacts(job: Job, was: Folder, ns: seq<string>)
    requires (forall n :: n in ns ==> n in was)
    requires forall m, n :: m in ns && n in ns && job.Dst(m) == job.Dst(n) ==> m == n
    ensures forall n :: n in ns ==> job.Dst(n) in Arrived(job, was, ns) && Arrived(job, was, ns)[job.Dst(n)] == was[n]
  {
    if ns != [] {
      var init, n := ns[..|ns| - 1], ns[|ns| - 1];
      assert ns == init + [n];
      ArrivedFacts(job, was, init);
    }
  }

  /** A job that goes well keeps every file, whatever the bytes, exactly when its names are apart. */
  lemma LosslessIffApart(job: Job)
    requires forall c :: c in job.covers ==> c !in job.names
    ensures job.Apart() <==> forall was :: Covers(job, was) ==> Lossless(job, was)
  {
    if job.Apart() {
      forall was | Covers(job, was) ensures Lossless(job, was) {
        ArrivedFacts(job, was, job.names);
      }
    }
    if forall was :: Covers(job, was) ==> Lossless(job, was) {
      forall m, n | m in job.names && n in job.names && job.Dst(m) == job.Dst(n) ensures m == n {
        SameNameLoses(job, Told(job, m), m, n);
      }
      forall m, c | m in job.names && c in job.covers ensures job.Dst(m) != c {
        CoverOverwrites(job, Told(job, m), m, c);
      }
    }
  }

  lemma SameNameLoses(job: Job, was: Folder, m: string, n: string)
    requires m in job.names && n in job.names && job.Dst(m) == job.Dst(n)
    requires Covers(job, was) && Lossless(job, was)
    ensures was[m] == was[n]
  {
  }

  lemma CoverOverwrites(job: Job, was: Folder, m: string, c: string)
    requires m in job.names && c in job.covers && Covers(job, was) && Lossless(job, was)
    ensures job.Dst(m) == c ==> was[m] == was[c]
  {
    assert c in Filled(job, was) && Filled(job, was)[c] == was[c];
  }

  /** Files of which one can be told from all others. */
  ghost function Told(job: Job, m: string): (was: Folder)
    ensures Covers(job, was) && forall n :: n in was ==> was[n] == if n == m then [0] else [1]
  {
    map n | n in job.names + job.covers :: if n == m then [0] else [1]
  }
}
