/**
 How a move of tools/cd_import.py ends, said of the outcomes of its operations, and what the disk holds after one
 that goes well.
 */
module MoveEnds {
  import opened FileMove

  /** A CUE sheet, by the end of its name in letters of either case, where some file is renamed. */
  ghost predicate IsSheet(job: Job, n: string)
  {
    && job.renames != map[] && |n| >= 4
    && n[|n| - 4..] in {".cue", ".cuE", ".cUe", ".cUE", ".Cue", ".CuE", ".CUe", ".CUE"}
  }

  /** The new name of a file. */
  ghost function NewName(job: Job, n: string): string
  {
    if n in job.renames then job.renames[n] else n
  }

  /** The folder is made, as it is not there yet. */
  ghost predicate Made(job: Job, luck: Luck, before: Disk)
  {
    luck.makes && job.target !in before
  }

  /** No move, no copy and no rewriting of a sheet fails. */
  ghost predicate AllWell(job: Job, luck: Luck)
  {
    && (forall n :: n in job.names ==> luck.move(n) == Done)
    && (forall c :: c in job.covers ==> luck.copy(c) == Done)
    && (forall n :: n in job.names && IsSheet(job, n) ==> luck.rewrite(n).Kept? || luck.rewrite(n).Rewritten?)
  }

  /** The file is moved before any move fails. */
  ghost predicate MovedOver(job: Job, luck: Luck, n: string)
  {
    exists p :: 0 <= p < |job.names| && job.names[p] == n && forall q :: 0 <= q <= p ==> luck.move(job.names[q]) == Done
  }

  lemma SheetIs(job: Job, n: string)
    ensures job.Sheet(n) <==> IsSheet(job, n)
  {
    if |n| >= 4 {
      var e := n[|n| - 4..];
      assert e == [n[|n| - 4], n[|n| - 3], n[|n| - 2], n[|n| - 1]];
    }
  }

  lemma NoneBadIff(ns: seq<string>, bad: string -> bool)
    ensures FirstBad(ns, bad) == |ns| <==> forall n :: n in ns ==> !bad(n)
  {
    var i := FirstBad(ns, bad);
    if i == |ns| {
      forall n | n in ns ensures !bad(n) {
        var p :| 0 <= p < |ns| && ns[p] == n;
      }
    } else {
      assert ns[i] in ns;
    }
  }

  lemma AllGoesIff(job: Job, luck: Luck)
    ensures AllGoes(job, luck) <==> AllWell(job, luck)
  {
    NoneBadIff(job.names, BadMove(luck));
    NoneBadIff(job.covers, BadCopy(luck));
    NoneBadIff(job.names, BadRewrite(job, luck));
    forall n ensures job.Sheet(n) <==> IsSheet(job, n) {
      SheetIs(job, n);
    }
    hide IsSheet;
    hide Job.Sheet;
    hide FirstBad;
  }

  lemma StuckIs(job: Job, luck: Luck)
    ensures forall n :: n in StuckFiles(job, luck) <==> MovedOver(job, luck, n) && luck.back(n) != Done
  {
    var i := FirstBad(job.names, BadMove(luck));
    hide FirstBad;
    forall n ensures n in job.names[..i] <==> MovedOver(job, luck, n) {
      if n in job.names[..i] {
        var p :| 0 <= p < i && job.names[p] == n;
        assert MovedOver(job, luck, n);
      }
      if MovedOver(job, luck, n) {
        var p :| 0 <= p < |job.names| && job.names[p] == n
                 && forall q :: 0 <= q <= p ==> luck.move(job.names[q]) == Done;
        assert p < i ==> job.names[..i][p] == n;
      }
    }
    hide MovedOver;
  }

  /**
   The job is refused when its folder cannot be made; moves all when nothing fails; and is else put back, or stuck
   when some file it had moved will not go back.
   */
  lemma EndsAs(job: Job, luck: Luck, before: Disk, after: Disk, r: Result)
    requires job.Ready(before) && Fate(job, luck, before, after, r)
    ensures r.NotMade? <==> !Made(job, luck, before)
    ensures r.Moved? <==> Made(job, luck, before) && AllWell(job, luck)
    ensures r.Stuck? <==>
      && Made(job, luck, before) && !AllWell(job, luck)
      && exists n :: MovedOver(job, luck, n) && luck.back(n) != Done
    ensures r.NotMade? ==> after == before
  {
    AllGoesIff(job, luck);
    StuckIs(job, luck);
    hide AllGoes;
    hide AllWell;
    hide MovedOver;
    if exists n :: MovedOver(job, luck, n) && luck.back(n) != Done {
      var n :| MovedOver(job, luck, n) && luck.back(n) != Done;
      assert n in StuckFiles(job, luck);
    }
    if r.Stuck? {
      var n :| n in StuckFiles(job, luck);
    }
    hide StuckFiles;
    hide StuckAt;
    hide AsRestored;
  }

  /** A file's bytes after the job: a sheet's new text, where it was rewritten. */
  ghost predicate BytesAre(job: Job, luck: Luck, n: string, was: Bytes, now: Bytes)
  {
    if IsSheet(job, n) && luck.rewrite(n).Rewritten? then now == luck.rewrite(n).text else now == was
  }

  /** Each file is gone from the source, and the rest of it as it was. */
  ghost predicate SourceLeft(job: Job, was: Folder, src: Folder)
  {
    (forall n :: n in src <==> n in was && n !in job.names) && forall n :: n in src ==> src[n] == was[n]
  }

  /** Each file lies under its new name, the covers beside them, and nothing else. */
  ghost predicate TargetHolds(job: Job, luck: Luck, was: Folder, tgt: Folder)
  {
    && (forall n :: n in job.names && n in was ==>
          NewName(job, n) in tgt && BytesAre(job, luck, n, was[n], tgt[NewName(job, n)]))
    && (forall c :: c in job.covers && c in was ==> c in tgt && tgt[c] == was[c])
    && (forall d :: d in tgt ==> d in job.covers || exists n :: n in job.names && NewName(job, n) == d)
  }

  /** After a job that moved all, no other folder has changed. */
  ghost predicate AllMoved(job: Job, luck: Luck, before: Disk, after: Disk)
    requires job.source in before
  {
    && job.source in after && job.target in after && after.Keys == before.Keys + {job.target}
    && (forall f :: f in before && f != job.source ==> after[f] == before[f])
    && SourceLeft(job, before[job.source], after[job.source])
    && TargetHolds(job, luck, before[job.source], after[job.target])
  }

  lemma BytesHeld(job: Job, luck: Luck, was: Folder, n: string)
    requires n in was && n in job.names && AllWell(job, luck)
    ensures BytesAre(job, luck, n, was[n], Holding(was, Rewrites(job, luck, was), n))
  {
    SheetIs(job, n);
    hide IsSheet;
    hide Job.Sheet;
  }

  lemma TargetIs(job: Job, luck: Luck, was: Folder, tgt: Folder)
    requires AllWell(job, luck) && forall n :: n in job.names ==> n in was
    requires TargetAt(job, was, tgt, Names(job.names), Rewrites(job, luck, was), CopiesOf(job.covers, was))
    ensures TargetHolds(job, luck, was, tgt)
  {
    hide BytesAre;
    hide Rewrites;
    hide AllWell;
    forall n | n in job.names && n in was
      ensures NewName(job, n) in tgt && BytesAre(job, luck, n, was[n], tgt[NewName(job, n)])
    {
      BytesHeld(job, luck, was, n);
    }
  }

  lemma SourceIs(job: Job, was: Folder, src: Folder)
    requires SourceAt(was, src, Names(job.names), map[])
    ensures SourceLeft(job, was, src)
  {
  }

  lemma OthersAre(job: Job, before: Disk, after: Disk)
    requires OthersSame(job, before, after) && job.target in after && job.source in before && job.target !in before
    ensures after.Keys == before.Keys + {job.target}
    ensures forall f :: f in before && f != job.source ==> after[f] == before[f]
  {
  }

  /** A job that goes well leaves the disk with everything moved. */
  lemma MovedMeans(job: Job, luck: Luck, before: Disk, after: Disk, r: Result)
    requires job.Ready(before) && Fate(job, luck, before, after, r) && r.Moved?
    ensures AllMoved(job, luck, before, after)
  {
    EndsAs(job, luck, before, after, r);
    OthersAre(job, before, after);
    SourceIs(job, before[job.source], after[job.source]);
    TargetIs(job, luck, before[job.source], after[job.target]);
    hide AllGoes;
    hide AllWell;
    hide OthersSame;
    hide SourceAt;
    hide TargetAt;
    hide SourceLeft;
    hide TargetHolds;
  }
}
