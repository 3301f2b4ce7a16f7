/**
 The folder a rip is staged into, and the names its files take there: `_own_folder` of tools/cd_import.py.

 The cutting of a long name at a word (`shorten`), where a disc suffix starts, and the length of the inbox
 path are parameters.
 */
module FolderName {
  import opened Decimal
  import opened FileMove

  const DIR_MAX := 247
  const PATH_MAX := 259
  const NAME_MIN := 20

  // ------------------------------------------------------------------ extensions

  function LastDot(s: string): (i: int)
    ensures -1 <= i < |s| && (i >= 0 ==> s[i] == '.') && forall j :: i < j < |s| ==> s[j] != '.'
  {
    if s == [] then -1
    else if s[|s| - 1] == '.' then |s| - 1
    else LastDot(s[..|s| - 1])
  }

  predicate AllDots(s: string)
  {
    forall i :: 0 <= i < |s| ==> s[i] == '.'
  }

  /** Where the extension starts: leading dots start none. */
  function Cut(n: string): (i: nat)
    ensures i <= |n|
  {
    var dot := LastDot(n);
    if dot < 0 || AllDots(n[..dot]) then |n| else dot
  }

  function Stem(n: string): string
  {
    n[..Cut(n)]
  }

  function Ext(n: string): string
  {
    n[Cut(n)..]
  }

  lemma LastDotIs(s: string, i: int)
    requires -1 <= i < |s| && (i >= 0 ==> s[i] == '.') && forall j :: i < j < |s| ==> s[j] != '.'
    ensures LastDot(s) == i
  {
  }

  /** A name given an extension has that extension. */
  lemma ExtOfRenamed(name: string, n: string)
    requires !AllDots(name) && Ext(n) != ""
    ensures Ext(name + Ext(n)) == Ext(n)
  {
    var e := Ext(n);
    assert e[0] == '.' && forall j :: 0 < j < |e| ==> e[j] != '.' by {
      assert forall j :: 0 <= j < |e| ==> e[j] == n[Cut(n) + j];
    }
    var s := name + e;
    LastDotIs(s, |name|);
    assert s[..|name|] == name;
  }

  // ------------------------------------------------------------------- the names

  predicate Named(stem: string, n: string)
  {
    Stem(n) <= stem
  }

  /** The name a file takes in a folder of this name. */
  function Final(stem: string, name: string, n: string): string
  {
    if name == stem || !Named(stem, n) then n else name + Ext(n)
  }

  function Renames(stem: string, name: string, names: seq<string>): map<string, string>
  {
    if name == stem then map[] else map n | n in names && Named(stem, n) :: name + Ext(n)
  }

  function Finals(stem: string, name: string, names: seq<string>): set<string>
  {
    set n | n in names :: Final(stem, name, n)
  }

  ghost predicate Listed(names: seq<string>)
  {
    forall i, j :: 0 <= i < j < |names| ==> names[i] != names[j]
  }

  ghost predicate DistinctFinals(stem: string, name: string, names: seq<string>)
  {
    forall m, n :: m in names && n in names && Final(stem, name, m) == Final(stem, name, n) ==> m == n
  }

  /** The count of different names tells whether two files would be given one. */
  lemma {:induction false} CountTells(stem: string, name: string, names: seq<string>)
    requires Listed(names)
    ensures |Finals(stem, name, names)| <= |names|
    ensures |Finals(stem, name, names)| == |names| <==> DistinctFinals(stem, name, names)
  {
    hide Final;
    if names != [] {
      var init, n := names[..|names| - 1], names[|names| - 1];
      assert names == init + [n];
      CountTells(stem, name, init);
      var f := Final(stem, name, n);
      assert Finals(stem, name, names) == Finals(stem, name, init) + {f};
      OneMoreFinal(stem, name, init, n);
      hide Finals;
      hide DistinctFinals;
    }
  }

  lemma OneMoreFinal(stem: string, name: string, init: seq<string>, n: string)
    requires n !in init
    ensures DistinctFinals(stem, name, init + [n])
      <==> DistinctFinals(stem, name, init) && Final(stem, name, n) !in Finals(stem, name, init)
  {
    hide Final;
    var names, f := init + [n], Final(stem, name, n);
    assert forall m :: m in names <==> m in init || m == n;
    if f in Finals(stem, name, init) {
      var m :| m in init && Final(stem, name, m) == f;
      assert m in names && n in names && m != n;
    } else {
      forall m | m in init ensures Final(stem, name, m) != f {
        assert Final(stem, name, m) in Finals(stem, name, init);
      }
    }
  }

  /**
   With distinct names counted over files and covers alike, a job's names are apart except in one case: a
   file without an extension that takes the folder's cut name, beside a cover that has that very name.
   */
  lemma ApartIff(stem: string, name: string, job: Job)
    requires !AllDots(name) && (forall c :: c in job.covers ==> c !in job.names)
    requires DistinctFinals(stem, name, job.names + job.covers)
    requires job.renames == Renames(stem, name, job.names + job.covers)
    ensures job.Apart()
      <==> !exists m :: m in job.names && Named(stem, m) && Ext(m) == "" && name != stem && name in job.covers
  {
    forall n | n in job.names ensures n in job.names + job.covers && job.Dst(n) == Final(stem, name, n) {
    }
    forall m, c | m in job.names && c in job.covers && job.Dst(m) == c
      ensures Named(stem, m) && Ext(m) == "" && name != stem && c == name
    {
      CoverClash(stem, name, job.names + job.covers, m, c);
    }
    forall m | m in job.names && Named(stem, m) && Ext(m) == "" && name != stem && name in job.covers
      ensures job.Dst(m) == name
    {
      assert name + "" == name;
    }
  }

  lemma CoverClash(stem: string, name: string, all: seq<string>, m: string, c: string)
    requires !AllDots(name) && DistinctFinals(stem, name, all) && m in all && c in all && m != c
    requires Final(stem, name, m) == c
    ensures Named(stem, m) && name != stem && Ext(m) == "" && c == name
  {
    if Ext(m) != "" {
      ExtOfRenamed(name, m);
    } else {
      assert name + "" == name;
    }
  }

  // -------------------------------------------------------------------- the tags

  function Tag(k: nat): string
  {
    if k > 1 then " (" + Digits(k) + ")" else ""
  }

  /** Two names with different tags differ. */
  lemma TagTells(a: string, b: string, j: nat, k: nat)
    requires j > 1 && k > 1 && a + Tag(j) == b + Tag(k)
    ensures j == k
  {
    hide Digits;
    var s, p, q := a + Tag(j), Digits(j), Digits(k);
    SameLength(s, a, b, p, q);
    SameLength(s, b, a, q, p);
    assert p == s[|s| - 1 - |p|..|s| - 1] == q;
    DigitsInjective(j, k);
  }

  lemma SameLength(s: string, a: string, b: string, p: string, q: string)
    requires s == a + (" (" + p + ")") && s == b + (" (" + q + ")")
    requires forall i :: 0 <= i < |q| ==> '0' <= q[i] <= '9'
    ensures |p| >= |q|
  {
    var i := |s| - 2 - |p|;
    assert s[i] == '(';
    var start := |s| - 1 - |q|;
    assert forall t :: start <= t < |s| - 1 ==> s[t] == q[t - start];
  }

  // ----------------------------------------------------------------- the choosing

  /** A rip to stage: its name, where its disc suffix starts, and what the inbox holds. */
  datatype Rip = Rip(stem: string, whole: string, head: nat, shorten: (string, nat) -> string, prefix: nat,
                     taken: set<string>)
  {
    predicate Proper()
    {
      head <= |whole|
    }

    function Floor(): (n: nat)
      requires Proper()
      ensures n <= head
    {
      if NAME_MIN < head then NAME_MIN else head
    }

    /** The names to try under one tag: whole, and then cut shorter and shorter. */
    function Tries(k: nat): (ts: seq<string>)
      requires Proper()
      ensures |ts| == 1 + head - Floor()
    {
      [whole + Tag(k)]
      + seq(head - Floor(), i requires 0 <= i < head - Floor() =>
              (shorten(whole[..head], head - 1 - i) + whole[head..]) + Tag(k))
    }

    predicate Fits(names: seq<string>, name: string)
    {
      && prefix + |name| <= DIR_MAX
      && forall n :: n in names ==> prefix + |name| + 1 + |Final(stem, name, n)| + 1 <= PATH_MAX
    }

    /** The number of the first name under a tag that fits, or how many there are. */
    function FirstFit(names: seq<string>, k: nat): (i: nat)
      requires Proper()
      ensures i <= |Tries(k)| && (i < |Tries(k)| ==> Fits(names, Tries(k)[i]))
      ensures forall j :: 0 <= j < i ==> !Fits(names, Tries(k)[j])
    {
      FirstBad(Tries(k), t => Fits(names, t))
    }

    predicate Holds(names: seq<string>, k: nat)
      requires Proper()
    {
      FirstFit(names, k) < |Tries(k)|
    }

    /** The name a tag leads to. */
    function Pick(names: seq<string>, k: nat): string
      requires Proper() && Holds(names, k)
    {
      Tries(k)[FirstFit(names, k)]
    }

    /** Every tag before this one leads to a name the inbox has. */
    ghost predicate TakenBefore(names: seq<string>, k: nat)
      requires Proper()
    {
      forall j :: 1 <= j < k ==> Holds(names, j) && Pick(names, j) in taken
    }
  }

  datatype Choice = TooLong | OneNameTwice | Chosen(name: string, renames: map<string, string>)

  lemma TryEndsInTag(r: Rip, k: nat, i: nat) returns (a: string)
    requires r.Proper() && i < |r.Tries(k)|
    ensures r.Tries(k)[i] == a + Tag(k)
  {
    a := if i == 0 then r.whole else r.shorten(r.whole[..r.head], r.head - i) + r.whole[r.head..];
  }

  lemma PicksDiffer(r: Rip, names: seq<string>, j: nat, k: nat)
    requires r.Proper() && 1 < j < k && r.Holds(names, j) && r.Holds(names, k)
    ensures r.Pick(names, j) != r.Pick(names, k)
  {
    var a := TryEndsInTag(r, j, r.FirstFit(names, j));
    var b := TryEndsInTag(r, k, r.FirstFit(names, k));
    if r.Pick(names, j) == r.Pick(names, k) {
      TagTells(a, b, j, k);
    }
  }

  /** The name, of all a rip may take, that it takes, or why it takes none. */
  ghost predicate Chooses(r: Rip, names: seq<string>, k: nat, c: Choice)
    requires r.Proper()
  {
    && k >= 1 && r.TakenBefore(names, k)
    && match c
       case TooLong => !r.Holds(names, k)
       case OneNameTwice =>
         r.Holds(names, k) && r.Pick(names, k) !in r.taken && !DistinctFinals(r.stem, r.Pick(names, k), names)
       case Chosen(name, renames) =>
         && r.Holds(names, k) && name == r.Pick(names, k) && name !in r.taken && r.Fits(names, name)
         && DistinctFinals(r.stem, name, names) && renames == Renames(r.stem, name, names)
  }

  lemma PickFits(r: Rip, names: seq<string>, k: nat)
    requires r.Proper() && r.Holds(names, k)
    ensures r.Fits(names, r.Pick(names, k))
  {
  }

  /** Tags are tried in order until one leads to a free name, or to none that fits. */
  method OwnFolder(r: Rip, names: seq<string>) returns (c: Choice, ghost k: nat)
    requires r.Proper() && Listed(names)
    ensures Chooses(r, names, k, c)
  {
    hide Rip.Holds;
    hide Rip.Pick;
    hide Rip.Fits;
    hide Finals;
    hide DistinctFinals;
    hide Renames;
    var tag := 1;
    ghost var seen: set<string> := {};
    while true
      invariant tag >= 1 && r.TakenBefore(names, tag)
      invariant seen <= r.taken && |seen| == (if tag == 1 then 0 else tag - 2)
      invariant forall s :: s in seen ==> exists j :: 1 < j < tag && r.Holds(names, j) && r.Pick(names, j) == s
      decreases |r.taken| - |seen|, if tag == 1 then 1 else 0
    {
      if !r.Holds(names, tag) {
        return TooLong, tag;
      }
      var name := r.Pick(names, tag);
      PickFits(r, names, tag);
      if name !in r.taken {
        CountTells(r.stem, name, names);
        if |Finals(r.stem, name, names)| < |names| {
          return OneNameTwice, tag;
        }
        return Chosen(name, Renames(r.stem, name, names)), tag;
      }
      if tag > 1 {
        NotSeen(r, names, tag, seen);
        MoreSeen(r.taken, seen, name);
        seen := seen + {name};
      }
      tag := tag + 1;
    }
  }

  lemma NotSeen(r: Rip, names: seq<string>, k: nat, seen: set<string>)
    requires r.Proper() && k > 1 && r.Holds(names, k)
    requires forall s :: s in seen ==> exists j :: 1 < j < k && r.Holds(names, j) && r.Pick(names, j) == s
    ensures r.Pick(names, k) !in seen
  {
    forall j | 1 < j < k && r.Holds(names, j) ensures r.Pick(names, j) != r.Pick(names, k) {
      PicksDiffer(r, names, j, k);
    }
  }

  lemma MoreSeen(taken: set<string>, seen: set<string>, s: string)
    requires seen <= taken && s in taken && s !in seen
    ensures |seen + {s}| == |seen| + 1 && |seen| < |taken|
  {
    assert |taken - seen| == |taken| - |seen| && s in taken - seen;
  }

  // ------------------------------------------------------------ what is chosen

  /** The name tried at a limit: the whole one, or its head cut to fewer characters, with its disc; and the tag. */
  ghost function TryAt(r: Rip, k: nat, limit: nat): string
    requires r.head <= |r.whole| && limit <= r.head
  {
    var disc := r.whole[r.head..];
    var tag := if k <= 1 then "" else " (" + Digits(k) + ")";
    (if limit == r.head then r.whole else r.shorten(r.whole[..r.head], limit) + disc) + tag
  }

  /** Heads are cut to no fewer than 20 characters. */
  ghost predicate IsLimit(r: Rip, limit: int)
  {
    0 <= limit <= r.head && (limit >= 20 || limit == r.head)
  }

  /** The name of a file in a folder of this name: of one named after the disc, the folder's and its own extension. */
  ghost function NameIn(r: Rip, name: string, n: string): string
  {
    if name != r.stem && Stem(n) <= r.stem then name + Ext(n) else n
  }

  /** Windows creates the folder and opens every file in it, and one beside it that is a character longer. */
  ghost predicate Openable(r: Rip, names: seq<string>, name: string)
  {
    && r.prefix + |name| <= 247
    && forall n :: n in names ==> r.prefix + |name| + |NameIn(r, name, n)| <= 257
  }

  /** The longest name under a tag that Windows can open. */
  ghost predicate LongestOpenable(r: Rip, names: seq<string>, k: nat, name: string)
    requires r.head <= |r.whole|
  {
    exists n :: IsLimit(r, n) && name == TryAt(r, k, n) && Openable(r, names, name)
                && forall m :: n < m && IsLimit(r, m) ==> !Openable(r, names, TryAt(r, k, m))
  }

  ghost predicate NoneOpenable(r: Rip, names: seq<string>, k: nat)
    requires r.head <= |r.whole|
  {
    forall n :: IsLimit(r, n) ==> !Openable(r, names, TryAt(r, k, n))
  }

  lemma FitsIsOpenable(r: Rip, names: seq<string>, name: string)
    ensures r.Fits(names, name) <==> Openable(r, names, name)
  {
    forall n ensures Final(r.stem, name, n) == NameIn(r, name, n) {
    }
    hide Final;
    hide NameIn;
    hide Stem;
    hide Ext;
  }

  lemma TryIs(r: Rip, k: nat, i: nat)
    requires r.Proper() && i < |r.Tries(k)|
    ensures IsLimit(r, r.head - i) && r.Tries(k)[i] == TryAt(r, k, r.head - i)
  {
  }

  lemma LimitIs(r: Rip, k: nat, n: nat)
    requires r.Proper() && IsLimit(r, n)
    ensures r.head - n < |r.Tries(k)|
  {
  }

  lemma EarlierDoesNotFit(r: Rip, names: seq<string>, k: nat, m: int)
    requires r.Proper() && IsLimit(r, m)
    requires r.head - m < r.FirstFit(names, k) || r.FirstFit(names, k) == |r.Tries(k)|
    ensures !Openable(r, names, TryAt(r, k, m))
  {
    var i := r.head - m;
    LimitIs(r, k, m);
    TryIs(r, k, i);
    FitsIsOpenable(r, names, r.Tries(k)[i]);
    hide Openable;
    hide TryAt;
    hide IsLimit;
    hide Rip.Tries;
    hide Rip.Fits;
    hide Rip.FirstFit;
    assert !r.Fits(names, r.Tries(k)[i]);
  }

  /** A tag leads to the longest name under it that can be opened, where there is one. */
  lemma PickIs(r: Rip, names: seq<string>, k: nat)
    requires r.Proper()
    ensures r.Holds(names, k) ==> LongestOpenable(r, names, k, r.Pick(names, k))
    ensures !r.Holds(names, k) ==> NoneOpenable(r, names, k)
  {
    var f := r.FirstFit(names, k);
    forall m | IsLimit(r, m) && (r.head - m < f || f == |r.Tries(k)|) ensures !Openable(r, names, TryAt(r, k, m)) {
      EarlierDoesNotFit(r, names, k, m);
    }
    if f < |r.Tries(k)| {
      TryIs(r, k, f);
      FitsIsOpenable(r, names, r.Tries(k)[f]);
    }
    hide TryAt;
    hide Openable;
    hide IsLimit;
    hide Rip.Tries;
    hide Rip.Fits;
  }

  ghost predicate TakenAt(r: Rip, names: seq<string>, k: nat)
    requires r.head <= |r.whole|
  {
    exists t :: t in r.taken && LongestOpenable(r, names, k, t)
  }

  /** Every earlier tag leads to a name that is taken. */
  ghost predicate EarlierTaken(r: Rip, names: seq<string>, k: nat)
    requires r.head <= |r.whole|
  {
    forall j :: 1 <= j < k ==> TakenAt(r, names, j)
  }

  /**
   What is chosen: under the first tag that does not lead to a name taken, the longest name that can be opened, with
   every file that has the disc's name taking the folder's and no two files one name; or a refusal, because none
   under that tag can be opened, or because two files would have one name.
   */
  lemma ChosenIs(r: Rip, names: seq<string>, k: nat, c: Choice)
    requires r.Proper() && Chooses(r, names, k, c)
    ensures k >= 1 && EarlierTaken(r, names, k)
    ensures c.TooLong? ==> NoneOpenable(r, names, k)
    ensures c.OneNameTwice? ==>
      exists t :: LongestOpenable(r, names, k, t) && t !in r.taken && !DistinctFinals(r.stem, t, names)
    ensures c.Chosen? ==>
      LongestOpenable(r, names, k, c.name) && c.name !in r.taken && DistinctFinals(r.stem, c.name, names)
    ensures c.Chosen? ==>
      && (forall n :: n in c.renames <==> n in names && Stem(n) <= r.stem && c.name != r.stem)
      && (forall n :: n in c.renames ==> c.renames[n] == c.name + Ext(n))
  {
    hide LongestOpenable;
    hide NoneOpenable;
    hide DistinctFinals;
    hide Rip.Holds;
    hide Rip.Pick;
    hide Stem;
    hide Ext;
    hide Rip.Fits;
    PickIs(r, names, k);
    forall j | 1 <= j < k ensures TakenAt(r, names, j) {
      PickIs(r, names, j);
      assert r.Holds(names, j) && r.Pick(names, j) in r.taken;
    }
    if c.OneNameTwice? {
      assert LongestOpenable(r, names, k, r.Pick(names, k)) && r.Pick(names, k) !in r.taken;
    }
  }

  // A set's disc, named after a picture: its CUE, an audio file without extension, and a cover that keeps the
  // name the folder is cut to. `shorten` cuts every limit from 20 to 10 characters, at the one space.

  const LONG_STEM := "abcdef.jpg klmnopqrst"
  const CUT_STEM := "abcdef.jpg"
  const SHEET := "abcdef.jpg klmnopqrst.cue"
  const BARE := "abcdef"

  ghost function PictureRip(): Rip
  {
    Rip(LONG_STEM, LONG_STEM, 21, (text, limit) => CUT_STEM, 220, {})
  }

  lemma PictureNames()
    ensures Stem(SHEET) == LONG_STEM && Ext(SHEET) == ".cue"
    ensures Stem(BARE) == BARE && Ext(BARE) == "" && Stem(CUT_STEM) == BARE && Ext(CUT_STEM) == ".jpg"
    ensures Named(LONG_STEM, SHEET) && Named(LONG_STEM, BARE) && Named(LONG_STEM, CUT_STEM)
  {
    LastDotIs(SHEET, 21);
    LastDotIs(BARE, -1);
    LastDotIs(CUT_STEM, 6);
    assert SHEET[..21] == LONG_STEM && SHEET[21..] == ".cue" && SHEET[0] == 'a';
    assert CUT_STEM[..6] == BARE && CUT_STEM[6..] == ".jpg" && CUT_STEM[0] == 'a';
    assert BARE <= LONG_STEM;
  }

  lemma PictureFinals()
    ensures Final(LONG_STEM, CUT_STEM, SHEET) == "abcdef.jpg.cue"
    ensures Final(LONG_STEM, CUT_STEM, BARE) == CUT_STEM
    ensures Final(LONG_STEM, CUT_STEM, CUT_STEM) == "abcdef.jpg.jpg"
    ensures DistinctFinals(LONG_STEM, CUT_STEM, [SHEET, BARE] + [CUT_STEM])
  {
    PictureNames();
    hide Stem;
    hide Ext;
    hide Named;
    assert |LONG_STEM| == 21 && |CUT_STEM| == 10;
    var cue, jpg := "abcdef.jpg.cue", "abcdef.jpg.jpg";
    assert |cue| == 14 && |jpg| == 14 && cue[11] != jpg[11];
    assert |SHEET| == 25 && |BARE| == 6;
  }

  lemma PictureTries()
    ensures PictureRip().Proper() && PictureRip().Tries(1) == [LONG_STEM, CUT_STEM]
  {
    var r := PictureRip();
    assert |LONG_STEM| == 21 && r.Floor() == 20;
    assert LONG_STEM + Tag(1) == LONG_STEM && LONG_STEM[21..] == "" && CUT_STEM + "" + Tag(1) == CUT_STEM;
  }

  /** The whole name holds no file, the cut one all: the search picks it. */
  lemma PicturePicked(all: seq<string>)
    requires all == [SHEET, BARE] + [CUT_STEM]
    ensures PictureRip().Proper()
    ensures Chooses(PictureRip(), all, 1, Chosen(CUT_STEM, Renames(LONG_STEM, CUT_STEM, all)))
  {
    hide Rip.Tries;
    hide Stem;
    hide Ext;
    hide DistinctFinals;
    var r := PictureRip();
    PictureTries();
    PictureFinals();
    assert |LONG_STEM| == 21 && |CUT_STEM| == 10 && |SHEET| == 25 && |BARE| == 6;
    assert SHEET in all && Final(LONG_STEM, LONG_STEM, SHEET) == SHEET;
    assert !r.Fits(all, LONG_STEM);
    assert r.Fits(all, CUT_STEM);
    FirstBadIs(r.Tries(1), t => r.Fits(all, t), 1);
    assert r.FirstFit(all, 1) == 1;
  }

  lemma PictureListed()
    ensures Listed([SHEET, BARE] + [CUT_STEM]) && BARE in [SHEET, BARE]
    ensures CUT_STEM !in [SHEET, BARE] && !AllDots(CUT_STEM)
  {
    assert |SHEET| == 25 && |BARE| == 6 && |CUT_STEM| == 10 && CUT_STEM[0] == 'a';
    assert BARE == [SHEET, BARE][1];
  }

  /** A rip whose cover is copied over the file that was given the folder's name, which the count does not see. */
  lemma CoverMeetsBareFile()
    ensures var names, covers := [SHEET, BARE], [CUT_STEM];
      var renames := Renames(LONG_STEM, CUT_STEM, names + covers);
      && PictureRip().Proper() && Listed(names + covers)
      && Chooses(PictureRip(), names + covers, 1, Chosen(CUT_STEM, renames))
      && !Job("inbox", "inbox/abcdef.jpg", names, renames, covers).Apart()
  {
    var names, covers := [SHEET, BARE], [CUT_STEM];
    PicturePicked(names + covers);
    PictureListed();
    PictureNames();
    PictureFinals();
    hide Chooses;
    hide Renames;
    hide Listed;
    hide DistinctFinals;
    hide Job.Apart;
    hide AllDots;
    var job := Job("inbox", "inbox/abcdef.jpg", names, Renames(LONG_STEM, CUT_STEM, names + covers), covers);
    ApartIff(LONG_STEM, CUT_STEM, job);
  }
}
