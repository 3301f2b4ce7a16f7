/**
 Finding catalogue rows that name a row the catalogue does not hold, and applying what was decided about
 them, as tools/catalogue_integrity.py does it at the merge of a sync.

 The catalogue is one map from (table, primary key) to row. An insert is skipped exactly when its key is
 held; each finding is applied inside a savepoint, and one that fails is rolled back alone.
 */
module CatalogueIntegrity {
  import opened Optional
  import opened OrderedIds

  datatype Value = Null | Int(n: int) | Text(s: string)

  datatype Table =
    | Files | FileTags | Passages | PassageRecordings | IdChecks
    | Recordings | Artists | Releases | Works
    | RecordingArtists | ReleaseRecordings | RecordingRelations | RecordingWorks
    | Lyrics | Flavor | FileReleases | CoverArt

  type Row = map<string, Value>
  type Key = seq<Value>
  type Db = map<(Table, Key), Row>

  // --------------------------------------------------------------------- schema

  function PrimaryKey(t: Table): seq<string>
  {
    match t
    case Files => ["file_id"]
    case FileTags => ["file_id"]
    case Passages => ["passage_id"]
    case PassageRecordings => ["passage_id", "mbid"]
    case IdChecks => ["passage_id"]
    case Recordings => ["mbid"]
    case Artists => ["mbid"]
    case Releases => ["mbid"]
    case Works => ["mbid"]
    case RecordingArtists => ["mbid", "artist_mbid"]
    case ReleaseRecordings => ["release_mbid", "mbid"]
    case RecordingRelations => ["mbid", "related_mbid"]
    case RecordingWorks => ["mbid", "work_mbid"]
    case Lyrics => ["mbid"]
    case Flavor => ["subject_kind", "subject_id", "characteristic", "class"]
    case FileReleases => ["audio_md5"]
    case CoverArt => ["release_mbid"]
  }

  /** The columns of a table that name a row of another. */
  function Columns(t: Table): set<string>
  {
    match t
    case FileTags => {"file_id"}
    case Passages => {"file_id"}
    case PassageRecordings => {"passage_id", "mbid"}
    case RecordingArtists => {"mbid", "artist_mbid"}
    case ReleaseRecordings => {"release_mbid", "mbid"}
    case RecordingRelations => {"mbid", "related_mbid"}
    case RecordingWorks => {"mbid", "work_mbid"}
    case Lyrics => {"mbid"}
    case _ => {}
  }

  /** The table a foreign key names, by its one-column primary key. */
  function ParentOf(column: string): Table
  {
    match column
    case "file_id" => Files
    case "passage_id" => Passages
    case "artist_mbid" => Artists
    case "release_mbid" => Releases
    case "work_mbid" => Works
    case _ => Recordings
  }

  /** The tables whose rows are links and nothing more. */
  predicate IsLinkTable(t: Table)
  {
    t == ReleaseRecordings || t == RecordingArtists || t == RecordingRelations
  }

  function Get(r: Row, column: string): Value
  {
    if column in r then r[column] else Null
  }

  function KeyOf(t: Table, r: Row): Key
  {
    seq(|PrimaryKey(t)|, i requires 0 <= i < |PrimaryKey(t)| => Get(r, PrimaryKey(t)[i]))
  }

  ghost predicate WellKeyed(db: Db)
  {
    forall x :: x in db ==> x.1 == KeyOf(x.0, db[x])
  }

  predicate Held(db: Db, t: Table, v: Value)
  {
    (t, [v]) in db
  }

  /** The row at x names, in a foreign key column, a row its parent table does not hold. */
  predicate Dangles(db: Db, x: (Table, Key), column: string)
  {
    x in db && column in Columns(x.0) && Get(db[x], column) != Null
    && !Held(db, ParentOf(column), Get(db[x], column))
  }

  // -------------------------------------------------------------------- finding

  type Owner = map<string, Value>

  /** A row's key without the column that dangles. */
  function OwnerOf(t: Table, r: Row, column: string): Owner
  {
    map c | c in PrimaryKey(t) && c != column :: Get(r, c)
  }

  datatype Finding =
    | Broken(table: Table, column: string, owner: Owner, missing: set<Value>, rows: set<(Table, Key)>)
    | NoTracklist(mbid: Value, fileTakenFromIt: bool)

  function RowsOf(db: Db, t: Table, column: string, owner: Owner): set<(Table, Key)>
  {
    set x | x in db && x.0 == t && Dangles(db, x, column) && OwnerOf(t, db[x], column) == owner
  }

  function BrokenAt(db: Db, t: Table, column: string, owner: Owner): Finding
  {
    var rows := RowsOf(db, t, column, owner);
    Broken(t, column, owner, set x | x in rows :: Get(db[x], column), rows)
  }

  predicate NamesRelease(db: Db, t: Table, v: Value)
  {
    exists x :: x in db && x.0 == t && Get(db[x], "release_mbid") == v
  }

  /** Every dangling row, grouped by what owns it, and every release no tracklist row names. */
  function Find(db: Db): set<Finding>
  {
    (set x, c | x in db && c in Columns(x.0) && Dangles(db, x, c) :: BrokenAt(db, x.0, c, OwnerOf(x.0, db[x], c)))
    + (set x | x in db && x.0 == Releases && |x.1| == 1 && !NamesRelease(db, ReleaseRecordings, x.1[0])
         :: NoTracklist(x.1[0], NamesRelease(db, FileReleases, x.1[0])))
  }

  predicate Removable(f: Finding)
  {
    match f
    case Broken(t, _, _, _, _) => IsLinkTable(t)
    case NoTracklist(_, taken) => !taken
  }

  // ----------------------------------------------------------- offers, decisions

  datatype Answer = Answer(rows: map<Table, seq<Row>>, byRecording: bool, fetchable: bool, hasRoot: bool)

  function Rows(a: Answer, t: Table): seq<Row>
  {
    if t in a.rows then a.rows[t] else []
  }

  function Values(rows: seq<Row>, column: string): set<Value>
  {
    set d | d in rows :: Get(d, column)
  }

  function Where(rows: seq<Row>, p: Row -> bool): (r: seq<Row>)
    ensures forall d :: d in r <==> d in rows && p(d)
  {
    if rows == [] then []
    else
      assert rows == [rows[0]] + rows[1..];
      (if p(rows[0]) then [rows[0]] else []) + Where(rows[1..], p)
  }

  function In(column: string, vs: set<Value>): Row -> bool
  {
    (d: Row) => Get(d, column) in vs
  }

  /** A node's tracklist rows, where the node can name their tracks. */
  function NamedTracks(a: Answer): seq<Row>
  {
    Where(Rows(a, ReleaseRecordings), In("mbid", Values(Rows(a, Recordings), "mbid")))
  }

  /** The missing keys of a finding that a node holds. */
  function Offered(f: Finding, a: Answer): set<Value>
  {
    match f
    case Broken(_, column, _, missing, _) =>
      var parent := ParentOf(column);
      if parent == Recordings || parent == Releases || parent == Artists
      then Values(Rows(a, parent), "mbid") * missing
      else {}
    case NoTracklist(mbid, _) => Values(NamedTracks(a), "release_mbid") * {mbid}
  }

  datatype Decision = Leave | Remove(offersSeen: set<string>) | Repair(node: string) | RepairFiles(node: string)

  datatype Effect = Nothing | RemoveRows | RepairRows(node: string, withFiles: bool)

  /**
   What a merge is given: the decisions, the nodes' answers, where a node's file would go, and which
   findings the database refuses part of the way through.
   */
  datatype Config = Config(decisions: map<Finding, Decision>, answers: map<string, Answer>,
                           place: (string, Value) -> Option<Value>, stamp: Value, failing: set<Finding>)

  function Offering(f: Finding, cfg: Config): set<string>
  {
    set n | n in cfg.answers && Offered(f, cfg.answers[n]) != {}
  }

  function FilesKnown(f: Finding, a: Answer): bool
  {
    a.byRecording && f.Broken? && ParentOf(f.column) == Recordings
  }

  /** What a decision does in this run; `Nothing` covers undecided, leave and held. */
  function EffectOf(f: Finding, cfg: Config): (e: Effect)
    ensures e.RemoveRows? ==> Removable(f)
    ensures e.RepairRows? ==> e.node in cfg.answers && Offered(f, cfg.answers[e.node]) != {}
    ensures e.RepairRows? && e.withFiles ==> f.Broken? && ParentOf(f.column) == Recordings
  {
    if f !in cfg.decisions then Nothing
    else
      match cfg.decisions[f]
      case Leave => Nothing
      case Remove(seen) => if !Removable(f) || Offering(f, cfg) - seen != {} then Nothing else RemoveRows
      case Repair(node) => if node !in Offering(f, cfg) then Nothing else RepairRows(node, false)
      case RepairFiles(node) =>
        if node !in Offering(f, cfg) then Nothing
        else
          var a := cfg.answers[node];
          if !FilesKnown(f, a) || !a.fetchable || !a.hasRoot then Nothing else RepairRows(node, true)
  }

  // ------------------------------------------------------------------ inserting

  /** INSERT OR IGNORE */
  function Insert(db: Db, t: Table, r: Row): Db
  {
    if (t, KeyOf(t, r)) in db then db else db[(t, KeyOf(t, r)) := r]
  }

  function InsertAll(db: Db, t: Table, rows: seq<Row>): Db
  {
    if rows == [] then db else Insert(InsertAll(db, t, rows[..|rows| - 1]), t, rows[|rows| - 1])
  }

  /** Every foreign key of the row names a row held. */
  ghost predicate Supported(db: Db, t: Table, r: Row)
  {
    forall c :: c in Columns(t) && Get(r, c) != Null ==> Held(db, ParentOf(c), Get(r, c))
  }

  /** db' keeps every row of db as it is, and what it adds names only rows it holds. */
  ghost predicate Extends(db: Db, db': Db)
  {
    && (forall x :: x in db ==> x in db' && db'[x] == db[x])
    && (forall x :: x in db' && x !in db ==> Supported(db', x.0, db'[x]) && x.1 == KeyOf(x.0, db'[x]))
  }

  /** db' adds nothing to table t. */
  ghost predicate Leaves(db: Db, db': Db, t: Table)
  {
    forall x :: x in db' && x.0 == t ==> x in db
  }

  /** What db' adds is in table t. */
  ghost predicate OnlyIn(db: Db, db': Db, t: Table)
  {
    forall x :: x in db' && x !in db ==> x.0 == t
  }

  /** What db' adds to table t is among the given rows. */
  ghost predicate AddsFrom(db: Db, db': Db, t: Table, rows: seq<Row>)
  {
    forall x :: x in db' && x !in db && x.0 == t ==> db'[x] in rows
  }

  lemma SupportedMore(db: Db, db': Db, t: Table, r: Row)
    requires Supported(db, t, r) && forall x :: x in db ==> x in db'
    ensures Supported(db', t, r)
  {
  }

  lemma ExtendsTwice(db: Db, db1: Db, db2: Db)
    requires Extends(db, db1) && Extends(db1, db2)
    ensures Extends(db, db2)
  {
    forall x | x in db2 && x !in db ensures Supported(db2, x.0, db2[x]) && x.1 == KeyOf(x.0, db2[x]) {
      if x in db1 {
        SupportedMore(db1, db2, x.0, db1[x]);
      }
    }
  }

  lemma InsertFacts(db: Db, t: Table, d: Row)
    requires Supported(db, t, d)
    ensures Extends(db, Insert(db, t, d)) && AddsFrom(db, Insert(db, t, d), t, [d])
    ensures (t, KeyOf(t, d)) in Insert(db, t, d)
    ensures OnlyIn(db, Insert(db, t, d), t)
  {
    SupportedMore(db, Insert(db, t, d), t, d);
  }

  lemma {:induction false} InsertAllFacts(db: Db, t: Table, rows: seq<Row>)
    requires forall d :: d in rows ==> Supported(db, t, d)
    ensures Extends(db, InsertAll(db, t, rows)) && AddsFrom(db, InsertAll(db, t, rows), t, rows)
    ensures forall d :: d in rows ==> (t, KeyOf(t, d)) in InsertAll(db, t, rows)
    ensures OnlyIn(db, InsertAll(db, t, rows), t)
  {
    if rows != [] {
      var n := |rows| - 1;
      var init, d := rows[..n], rows[n];
      assert rows == init + [d] && d in rows;
      InsertAllFacts(db, t, init);
      var db1 := InsertAll(db, t, init);
      SupportedMore(db, db1, t, d);
      InsertFacts(db1, t, d);
      ExtendsTwice(db, db1, Insert(db1, t, d));
    }
  }

  /** Rows of a table without foreign keys are always supported. */
  lemma InsertFreeRows(db: Db, t: Table, rows: seq<Row>)
    requires Columns(t) == {}
    ensures Extends(db, InsertAll(db, t, rows)) && AddsFrom(db, InsertAll(db, t, rows), t, rows)
    ensures forall d :: d in rows ==> (t, KeyOf(t, d)) in InsertAll(db, t, rows)
    ensures OnlyIn(db, InsertAll(db, t, rows), t)
  {
    InsertAllFacts(db, t, rows);
  }

  // ------------------------------------------------------------------- repairing

  function HeldIn(db: Db, t: Table, column: string): Row -> bool
  {
    (d: Row) => Held(db, t, Get(d, column))
  }

  function RecordingFlavor(keys: set<Value>): Row -> bool
  {
    (d: Row) => Get(d, "subject_kind") == Text("recording") && Get(d, "subject_id") in keys
  }

  function WithArtists(db: Db, a: Answer, keys: set<Value>): Db
  {
    var credits := Where(Rows(a, RecordingArtists), In("mbid", keys));
    InsertAll(db, Artists, Where(Rows(a, Artists), In("mbid", Values(credits, "artist_mbid"))))
  }

  function WithRecordings(db: Db, a: Answer, keys: set<Value>): Db
  {
    InsertAll(WithArtists(db, a, keys), Recordings, Where(Rows(a, Recordings), In("mbid", keys)))
  }

  function WithCredits(db: Db, a: Answer, keys: set<Value>): Db
  {
    var db2 := WithRecordings(db, a, keys);
    var credits := Where(Rows(a, RecordingArtists), In("mbid", keys));
    InsertAll(db2, RecordingArtists, Where(credits, HeldIn(db2, Artists, "artist_mbid")))
  }

  /** A node's recordings of some keys, parents first: artists, recordings, credits, flavor. */
  function AddRecordings(db: Db, a: Answer, keys: set<Value>): Db
  {
    InsertAll(WithCredits(db, a, keys), Flavor, Where(Rows(a, Flavor), RecordingFlavor(keys)))
  }

  /** The node's rows for the keys it holds, added where the hub has none. */
  function RepairDb(db: Db, f: Finding, a: Answer): Db
  {
    var keys := Offered(f, a);
    match f
    case Broken(_, column, _, _, _) =>
      if ParentOf(column) == Recordings then AddRecordings(db, a, keys)
      else InsertAll(db, ParentOf(column), Where(Rows(a, ParentOf(column)), In("mbid", keys)))
    case NoTracklist(_, _) =>
      var tracks := OfferedTracks(a, keys);
      var db1 := AddRecordings(db, a, Values(tracks, "mbid"));
      InsertAll(db1, ReleaseRecordings, Where(tracks, HeldIn(db1, Recordings, "mbid")))
  }

  function OfferedTracks(a: Answer, keys: set<Value>): seq<Row>
  {
    Where(NamedTracks(a), In("release_mbid", keys))
  }

  /** What db' adds to the tracklists names one of the given releases. */
  ghost predicate AddsTracksOf(db: Db, db': Db, releases: set<Value>)
  {
    forall x :: x in db' && x !in db && x.0 == ReleaseRecordings ==> Get(db'[x], "release_mbid") in releases
  }

  /** What db' adds to the releases is among the given ones. */
  ghost predicate AddsReleases(db: Db, db': Db, releases: set<Value>)
  {
    forall v :: Held(db', Releases, v) && !Held(db, Releases, v) ==> v in releases
  }

  lemma MbidKey(t: Table, r: Row)
    requires t == Recordings || t == Artists || t == Releases
    ensures KeyOf(t, r) == [Get(r, "mbid")]
  {
  }

  /** After the rows of some keys are inserted, every key among them is held. */
  lemma KeysHeld(db: Db, t: Table, rows: seq<Row>, keys: set<Value>)
    requires t == Recordings || t == Artists || t == Releases
    requires keys <= Values(rows, "mbid")
    ensures Extends(db, InsertAll(db, t, Where(rows, In("mbid", keys))))
    ensures forall v :: v in keys ==> Held(InsertAll(db, t, Where(rows, In("mbid", keys))), t, v)
    ensures OnlyIn(db, InsertAll(db, t, Where(rows, In("mbid", keys))), t)
    ensures forall v :: Held(InsertAll(db, t, Where(rows, In("mbid", keys))), t, v) ==> Held(db, t, v) || v in keys
  {
    var chosen := Where(rows, In("mbid", keys));
    InsertFreeRows(db, t, chosen);
    var db' := InsertAll(db, t, chosen);
    forall v | v in keys ensures Held(db', t, v) {
      var d :| d in rows && Get(d, "mbid") == v;
      assert d in chosen;
      MbidKey(t, d);
    }
    forall v | Held(db', t, v) && !Held(db, t, v) ensures v in keys {
      var d := db'[(t, [v])];
      assert d in chosen;
      MbidKey(t, d);
    }
  }

  lemma CreditsFacts(db: Db, a: Answer, keys: set<Value>)
    requires forall v :: v in keys ==> Held(db, Recordings, v)
    ensures var all := Where(Rows(a, RecordingArtists), In("mbid", keys));
      var credits := Where(all, HeldIn(db, Artists, "artist_mbid"));
      && Extends(db, InsertAll(db, RecordingArtists, credits))
      && OnlyIn(db, InsertAll(db, RecordingArtists, credits), RecordingArtists)
  {
    var credits := Where(Where(Rows(a, RecordingArtists), In("mbid", keys)), HeldIn(db, Artists, "artist_mbid"));
    forall d | d in credits ensures Supported(db, RecordingArtists, d) {
      assert Held(db, Artists, Get(d, "artist_mbid")) && Held(db, Recordings, Get(d, "mbid"));
    }
    InsertAllFacts(db, RecordingArtists, credits);
  }

  /** Adding recordings keeps what is held, holds the keys asked for, and touches neither releases nor tracklists. */
  lemma AddRecordingsFacts(db: Db, a: Answer, keys: set<Value>)
    requires keys <= Values(Rows(a, Recordings), "mbid")
    ensures Extends(db, AddRecordings(db, a, keys))
    ensures Leaves(db, AddRecordings(db, a, keys), ReleaseRecordings)
    ensures Leaves(db, AddRecordings(db, a, keys), Releases)
    ensures forall v :: v in keys ==> Held(AddRecordings(db, a, keys), Recordings, v)
  {
    var credits := Where(Rows(a, RecordingArtists), In("mbid", keys));
    var db1, db2, db3 := WithArtists(db, a, keys), WithRecordings(db, a, keys), WithCredits(db, a, keys);
    InsertFreeRows(db, Artists, Where(Rows(a, Artists), In("mbid", Values(credits, "artist_mbid"))));
    KeysHeld(db1, Recordings, Rows(a, Recordings), keys);
    CreditsFacts(db2, a, keys);
    InsertFreeRows(db3, Flavor, Where(Rows(a, Flavor), RecordingFlavor(keys)));
    ExtendsTwice(db, db1, db2);
    ExtendsTwice(db, db2, db3);
    ExtendsTwice(db, db3, AddRecordings(db, a, keys));
  }

  /** A repair of missing rows adds them, and the keys it was offered are then held. */
  lemma RepairBroken(db: Db, f: Finding, a: Answer)
    requires f.Broken?
    ensures Extends(db, RepairDb(db, f, a))
    ensures Leaves(db, RepairDb(db, f, a), ReleaseRecordings)
    ensures AddsReleases(db, RepairDb(db, f, a), if ParentOf(f.column) == Releases then f.missing else {})
    ensures forall v :: v in Offered(f, a) ==> Held(RepairDb(db, f, a), ParentOf(f.column), v)
  {
    var keys, parent := Offered(f, a), ParentOf(f.column);
    if parent == Recordings {
      AddRecordingsFacts(db, a, keys);
    } else if parent == Releases {
      KeysHeld(db, Releases, Rows(a, Releases), keys);
    } else if parent == Artists {
      KeysHeld(db, Artists, Rows(a, Artists), keys);
      assert Leaves(db, RepairDb(db, f, a), Releases);
    } else {
      NothingIn(Rows(a, parent), "mbid");
    }
  }

  lemma {:induction false} NothingIn(rows: seq<Row>, column: string)
    ensures Where(rows, In(column, {})) == []
  {
    if rows != [] {
      NothingIn(rows[1..], column);
    }
  }

  lemma TracksFacts(db: Db, tracks: seq<Row>, mbid: Value)
    requires Held(db, Releases, mbid) && forall d :: d in tracks ==> Get(d, "release_mbid") == mbid
    requires forall d :: d in tracks ==> Held(db, Recordings, Get(d, "mbid"))
    ensures var db' := InsertAll(db, ReleaseRecordings, tracks);
      && Extends(db, db') && AddsFrom(db, db', ReleaseRecordings, tracks)
      && Leaves(db, db', Releases)
      && forall d :: d in tracks ==> (ReleaseRecordings, KeyOf(ReleaseRecordings, d)) in db'
  {
    forall d | d in tracks ensures Supported(db, ReleaseRecordings, d) {
    }
    InsertAllFacts(db, ReleaseRecordings, tracks);
  }

  /** Every offered track names its release, and a recording the same node answers with. */
  lemma OfferedTracksFacts(a: Answer, mbid: Value, keys: set<Value>)
    requires keys == Values(NamedTracks(a), "release_mbid") * {mbid}
    ensures forall d :: d in OfferedTracks(a, keys) ==> Get(d, "release_mbid") == mbid
    ensures Values(OfferedTracks(a, keys), "mbid") <= Values(Rows(a, Recordings), "mbid")
    ensures keys != {} ==> exists d :: d in OfferedTracks(a, keys)
  {
    if keys != {} {
      assert mbid in keys;
      var d :| d in NamedTracks(a) && Get(d, "release_mbid") == mbid;
      assert d in OfferedTracks(a, keys);
    }
  }

  /** A repair of a tracklist adds the node's tracks of that release, and their recordings. */
  lemma RepairTracklist(db: Db, f: Finding, a: Answer)
    requires f.NoTracklist? && Held(db, Releases, f.mbid) && WellKeyed(db)
    ensures Extends(db, RepairDb(db, f, a))
    ensures AddsTracksOf(db, RepairDb(db, f, a), {f.mbid}) && Leaves(db, RepairDb(db, f, a), Releases)
    ensures Offered(f, a) != {} ==> NamesRelease(RepairDb(db, f, a), ReleaseRecordings, f.mbid)
  {
    var keys := Offered(f, a);
    var tracks := OfferedTracks(a, keys);
    OfferedTracksFacts(a, f.mbid, keys);
    var names := Values(tracks, "mbid");
    AddRecordingsFacts(db, a, names);
    var db1 := AddRecordings(db, a, names);
    var chosen := Where(tracks, HeldIn(db1, Recordings, "mbid"));
    TracksFacts(db1, chosen, f.mbid);
    var db2 := InsertAll(db1, ReleaseRecordings, chosen);
    ExtendsTwice(db, db1, db2);
    if keys != {} {
      ExtendsWellKeyed(db, db2);
      var d :| d in tracks;
      assert Get(d, "mbid") in names && d in chosen;
      TrackNamesRelease(db2, d, f.mbid);
    }
  }

  /** A row held under a track's key names the track's release. */
  lemma TrackNamesRelease(db: Db, d: Row, mbid: Value)
    requires WellKeyed(db) && Get(d, "release_mbid") == mbid
    requires (ReleaseRecordings, KeyOf(ReleaseRecordings, d)) in db
    ensures NamesRelease(db, ReleaseRecordings, mbid)
  {
    var x := (ReleaseRecordings, KeyOf(ReleaseRecordings, d));
    assert x.1 == KeyOf(ReleaseRecordings, db[x]);
    assert x.1[0] == Get(d, "release_mbid") == Get(db[x], "release_mbid");
  }

  lemma ExtendsWellKeyed(db: Db, db': Db)
    requires WellKeyed(db) && Extends(db, db')
    ensures WellKeyed(db')
  {
  }

  // -------------------------------------------------------------- copying files

  /** The audio of the node's files whose passages credit a missing recording it holds. */
  function WantedAudio(a: Answer, held: set<Value>): set<Value>
  {
    set c, p, d | c in Rows(a, PassageRecordings) && Get(c, "mbid") in held
                  && p in Rows(a, Passages) && Get(p, "passage_id") == Get(c, "passage_id")
                  && d in Rows(a, Files) && Get(d, "file_id") == Get(p, "file_id")
                :: Get(d, "audio_md5")
  }

  predicate HoldsAudio(db: Db, md5: Value)
  {
    exists x :: x in db && x.0 == Files && Get(db[x], "audio_md5") == md5
  }

  function FileCopy(d: Row, fid: int, dest: Value, stamp: Value): Row
  {
    d["file_id" := Int(fid)]["path" := dest]["first_seen" := stamp]["last_seen" := stamp]
  }

  function PassageCopy(p: Row, pid: int, fid: int): Row
  {
    p["passage_id" := Int(pid)]["file_id" := Int(fid)]
  }

  function PassageCopies(ps: seq<Row>, pid0: int, fid: int): (r: seq<Row>)
    ensures |r| == |ps| && forall i :: 0 <= i < |ps| ==> r[i] == PassageCopy(ps[i], pid0 + i, fid)
  {
    seq(|ps|, i requires 0 <= i < |ps| => PassageCopy(ps[i], pid0 + i, fid))
  }

  /** The new id of each of a file's passages, by the node's. */
  function NewIds(ps: seq<Row>, pid0: int): map<Value, int>
  {
    if ps == [] then map[]
    else NewIds(ps[..|ps| - 1], pid0)[Get(ps[|ps| - 1], "passage_id") := pid0 + |ps| - 1]
  }

  function Renumbered(rows: seq<Row>, column: string, ids: map<Value, int>): (r: seq<Row>)
    ensures forall d :: d in r <==>
      exists e :: e in rows && Get(e, column) in ids && d == e[column := Int(ids[Get(e, column)])]
  {
    if rows == [] then []
    else
      assert rows == [rows[0]] + rows[1..];
      (if Get(rows[0], column) in ids then [rows[0][column := Int(ids[Get(rows[0], column)])]] else [])
      + Renumbered(rows[1..], column, ids)
  }

  function PassagesOf(a: Answer, nid: Value): seq<Row>
  {
    Where(Rows(a, Passages), In("file_id", {nid}))
  }

  function WithFile(db: Db, d: Row, fid: int, dest: Value, stamp: Value): Db
  {
    Insert(db, Files, FileCopy(d, fid, dest, stamp))
  }

  function WithPassages(db: Db, a: Answer, nid: Value, fid: int, pid0: int): Db
  {
    InsertAll(db, Passages, PassageCopies(PassagesOf(a, nid), pid0, fid))
  }

  function WithTags(db: Db, a: Answer, nid: Value, fid: int): Db
  {
    InsertAll(db, FileTags, Renumbered(Rows(a, FileTags), "file_id", map[nid := fid]))
  }

  function WithPassageCredits(db: Db, a: Answer, ids: map<Value, int>): Db
  {
    InsertAll(db, PassageRecordings,
              Renumbered(Where(Rows(a, PassageRecordings), HeldIn(db, Recordings, "mbid")), "passage_id", ids))
  }

  function WithChecks(db: Db, a: Answer, ids: map<Value, int>): Db
  {
    InsertAll(db, IdChecks, Renumbered(Rows(a, IdChecks), "passage_id", ids))
  }

  function WithFileReleases(db: Db, a: Answer, md5: Value): Db
  {
    InsertAll(db, FileReleases, Where(Rows(a, FileReleases), In("audio_md5", {md5})))
  }

  /** What hangs on a file and its passages: tags, credits, checks, and the release it was taken from. */
  function WithHangers(db: Db, a: Answer, d: Row, fid: int, ids: map<Value, int>): Db
  {
    var db1 := WithTags(db, a, Get(d, "file_id"), fid);
    var db2 := WithPassageCredits(db1, a, ids);
    var db3 := WithChecks(db2, a, ids);
    WithFileReleases(db3, a, Get(d, "audio_md5"))
  }

  /** One of the node's files, catalogued under new ids: itself, its passages, and what hangs on them. */
  function CopyFile(db: Db, a: Answer, d: Row, fid: int, pid0: int, dest: Value, stamp: Value): Db
  {
    var nid := Get(d, "file_id");
    var ids := NewIds(PassagesOf(a, nid), pid0);
    var db1 := WithFile(db, d, fid, dest, stamp);
    var db2 := WithPassages(db1, a, nid, fid, pid0);
    WithHangers(db2, a, d, fid, ids)
  }

  /** The node's wanted files that the hub does not hold, each copied; none when one has no place to go. */
  function CopyFiles(db: Db, a: Answer, files: seq<Row>, want: set<Value>, fid: int, pid0: int,
                     place: Value -> Option<Value>, stamp: Value): Option<Db>
    decreases |files|
  {
    if files == [] then Some(db)
    else
      var d := files[0];
      if Get(d, "audio_md5") !in want || HoldsAudio(db, Get(d, "audio_md5")) then
        CopyFiles(db, a, files[1..], want, fid, pid0, place, stamp)
      else
        match place(Get(d, "path"))
        case None => None
        case Some(dest) =>
          CopyFiles(CopyFile(db, a, d, fid, pid0, dest, stamp), a, files[1..], want,
                    fid + 1, pid0 + |PassagesOf(a, Get(d, "file_id"))|, place, stamp)
  }

  /** No id of the table is n or more. */
  ghost predicate FreshFrom(db: Db, t: Table, n: int)
  {
    forall m :: m >= n ==> (t, [Int(m)]) !in db
  }

  ghost predicate Injective(ids: map<Value, int>)
  {
    forall u, v :: u in ids && v in ids && ids[u] == ids[v] ==> u == v
  }

  ghost predicate ValuesIn(ids: map<Value, int>, lo: int, hi: int)
  {
    forall v :: v in ids ==> lo <= ids[v] < hi
  }

  /** The row is a node's row of that table with its file and passage ids renamed. */
  ghost predicate CopyOf(t: Table, row: Row, a: Answer, fmap: map<Value, int>, pmap: map<Value, int>)
  {
    match t
    case Files =>
      exists d :: d in Rows(a, Files) && Get(d, "file_id") in fmap
        && Get(row, "file_id") == Int(fmap[Get(d, "file_id")]) && Get(row, "audio_md5") == Get(d, "audio_md5")
    case Passages =>
      exists p :: p in Rows(a, Passages) && Get(p, "passage_id") in pmap && Get(p, "file_id") in fmap
        && row == PassageCopy(p, pmap[Get(p, "passage_id")], fmap[Get(p, "file_id")])
    case FileTags =>
      exists r :: r in Rows(a, FileTags) && Get(r, "file_id") in fmap
        && row == r["file_id" := Int(fmap[Get(r, "file_id")])]
    case PassageRecordings =>
      exists r :: r in Rows(a, PassageRecordings) && Get(r, "passage_id") in pmap
        && row == r["passage_id" := Int(pmap[Get(r, "passage_id")])]
    case IdChecks =>
      exists r :: r in Rows(a, IdChecks) && Get(r, "passage_id") in pmap
        && row == r["passage_id" := Int(pmap[Get(r, "passage_id")])]
    case FileReleases =>
      row in Rows(a, FileReleases)
      && exists d :: d in Rows(a, Files) && Get(d, "file_id") in fmap && Get(d, "audio_md5") == Get(row, "audio_md5")
    case _ => false
  }

  /** Everything db' adds is a renamed copy of a node's row. */
  ghost predicate OnlyCopies(db: Db, db': Db, a: Answer, fmap: map<Value, int>, pmap: map<Value, int>)
  {
    forall x :: x in db' && x !in db ==> CopyOf(x.0, db'[x], a, fmap, pmap)
  }

  /** The node lists no file and no passage twice. */
  ghost predicate DistinctIds(rows: seq<Row>, column: string)
  {
    forall i, j :: 0 <= i < j < |rows| ==> Get(rows[i], column) != Get(rows[j], column)
  }

  lemma {:induction false} WhereDistinct(rows: seq<Row>, p: Row -> bool, column: string)
    requires DistinctIds(rows, column)
    ensures DistinctIds(Where(rows, p), column)
  {
    if rows != [] {
      WhereDistinct(rows[1..], p, column);
      assert rows == [rows[0]] + rows[1..];
      forall d | d in Where(rows[1..], p) ensures Get(rows[0], column) != Get(d, column) {
        var j :| 0 <= j < |rows[1..]| && rows[1..][j] == d;
        assert rows[j + 1] == d;
      }
    }
  }

  lemma {:induction false} NewIdsGiven(ps: seq<Row>, pid0: int)
    requires DistinctIds(ps, "passage_id")
    ensures forall i :: 0 <= i < |ps| ==>
      Get(ps[i], "passage_id") in NewIds(ps, pid0) && NewIds(ps, pid0)[Get(ps[i], "passage_id")] == pid0 + i
    ensures forall v :: v in NewIds(ps, pid0) ==> exists i :: 0 <= i < |ps| && Get(ps[i], "passage_id") == v
  {
    hide Get;
    if ps != [] {
      NewIdsGiven(ps[..|ps| - 1], pid0);
    }
  }

  lemma NewIdsFacts(ps: seq<Row>, pid0: int)
    requires DistinctIds(ps, "passage_id")
    ensures Injective(NewIds(ps, pid0)) && ValuesIn(NewIds(ps, pid0), pid0, pid0 + |ps|)
    ensures forall i :: 0 <= i < |ps| ==>
      Get(ps[i], "passage_id") in NewIds(ps, pid0) && NewIds(ps, pid0)[Get(ps[i], "passage_id")] == pid0 + i
    ensures forall v :: v in NewIds(ps, pid0) ==> exists i :: 0 <= i < |ps| && Get(ps[i], "passage_id") == v
  {
    hide NewIds;
    hide Get;
    NewIdsGiven(ps, pid0);
  }

  lemma CopyOfMore(t: Table, row: Row, a: Answer, fmap: map<Value, int>, pmap: map<Value, int>,
                   fmap': map<Value, int>, pmap': map<Value, int>)
    requires CopyOf(t, row, a, fmap, pmap)
    requires forall v :: v in fmap ==> v in fmap' && fmap'[v] == fmap[v]
    requires forall v :: v in pmap ==> v in pmap' && pmap'[v] == pmap[v]
    ensures CopyOf(t, row, a, fmap', pmap')
  {
  }

  lemma WithFileFacts(db: Db, a: Answer, d: Row, fid: int, dest: Value, stamp: Value, fmap: map<Value, int>)
    requires d in Rows(a, Files) && FreshFrom(db, Files, fid)
    requires Get(d, "file_id") in fmap && fmap[Get(d, "file_id")] == fid
    ensures var db' := WithFile(db, d, fid, dest, stamp);
      && Extends(db, db') && OnlyCopies(db, db', a, fmap, map[])
      && OnlyIn(db, db', Files)
      && Held(db', Files, Int(fid)) && FreshFrom(db', Files, fid + 1)
      && db'[(Files, [Int(fid)])] == FileCopy(d, fid, dest, stamp)
  {
    InsertFacts(db, Files, FileCopy(d, fid, dest, stamp));
    assert KeyOf(Files, FileCopy(d, fid, dest, stamp)) == [Int(fid)];
  }

  /** Inserting copies adds copies only. */
  lemma InsertsCopies(db: Db, t: Table, rows: seq<Row>, a: Answer, fmap: map<Value, int>, pmap: map<Value, int>)
    requires forall d :: d in rows ==> Supported(db, t, d) && CopyOf(t, d, a, fmap, pmap)
    ensures Extends(db, InsertAll(db, t, rows)) && OnlyIn(db, InsertAll(db, t, rows), t)
    ensures OnlyCopies(db, InsertAll(db, t, rows), a, fmap, pmap)
    ensures forall d :: d in rows ==> (t, KeyOf(t, d)) in InsertAll(db, t, rows)
    ensures AddsFrom(db, InsertAll(db, t, rows), t, rows)
  {
    InsertAllFacts(db, t, rows);
  }

  ghost predicate IdsHeld(db: Db, t: Table, ids: map<Value, int>)
  {
    forall v :: v in ids ==> Held(db, t, Int(ids[v]))
  }

  lemma IdKey(t: Table, r: Row, column: string, n: int)
    requires PrimaryKey(t) == [column] && Get(r, column) == Int(n)
    ensures KeyOf(t, r) == [Int(n)]
  {
  }

  lemma PassageCopyAt(db: Db, a: Answer, p: Row, nid: Value, fid: int, pid: int, fmap: map<Value, int>,
                      ids: map<Value, int>)
    requires Held(db, Files, Int(fid)) && nid in fmap && fmap[nid] == fid
    requires p in Rows(a, Passages) && Get(p, "file_id") == nid
    requires Get(p, "passage_id") in ids && ids[Get(p, "passage_id")] == pid
    ensures Supported(db, Passages, PassageCopy(p, pid, fid))
    ensures CopyOf(Passages, PassageCopy(p, pid, fid), a, fmap, ids)
  {
    assert Get(PassageCopy(p, pid, fid), "file_id") == Int(fid);
  }

  lemma CopiedIdsHeld(db: Db, ps: seq<Row>, copies: seq<Row>, pid0: int, fid: int)
    requires DistinctIds(ps, "passage_id") && copies == PassageCopies(ps, pid0, fid)
    requires forall c :: c in copies ==> (Passages, KeyOf(Passages, c)) in db
    ensures IdsHeld(db, Passages, NewIds(ps, pid0))
  {
    hide NewIds;
    hide KeyOf;
    hide Get;
    hide PassageCopy;
    NewIdsFacts(ps, pid0);
    var ids := NewIds(ps, pid0);
    forall v | v in ids ensures Held(db, Passages, Int(ids[v])) {
      var i :| 0 <= i < |ps| && Get(ps[i], "passage_id") == v;
      assert copies[i] in copies;
      PassageCopyKey(ps[i], pid0 + i, fid);
    }
  }

  lemma PassageCopyKey(p: Row, pid: int, fid: int)
    ensures KeyOf(Passages, PassageCopy(p, pid, fid)) == [Int(pid)]
  {
    IdKey(Passages, PassageCopy(p, pid, fid), "passage_id", pid);
  }

  /** A passage of the node's file, by its place among them. */
  lemma PassageAt(a: Answer, nid: Value, pid0: int, i: nat)
    requires DistinctIds(Rows(a, Passages), "passage_id") && i < |PassagesOf(a, nid)|
    ensures var p, ids := PassagesOf(a, nid)[i], NewIds(PassagesOf(a, nid), pid0);
      && p in Rows(a, Passages) && Get(p, "file_id") == nid
      && Get(p, "passage_id") in ids && ids[Get(p, "passage_id")] == pid0 + i
  {
    WhereDistinct(Rows(a, Passages), In("file_id", {nid}), "passage_id");
    NewIdsFacts(PassagesOf(a, nid), pid0);
    assert PassagesOf(a, nid)[i] in PassagesOf(a, nid);
  }

  lemma EachPassageCopy(db: Db, a: Answer, nid: Value, fid: int, pid0: int, fmap: map<Value, int>, c: Row)
    requires Held(db, Files, Int(fid)) && nid in fmap && fmap[nid] == fid
    requires DistinctIds(Rows(a, Passages), "passage_id")
    requires c in PassageCopies(PassagesOf(a, nid), pid0, fid)
    ensures Supported(db, Passages, c) && CopyOf(Passages, c, a, fmap, NewIds(PassagesOf(a, nid), pid0))
  {
    hide NewIds;
    hide Where;
    hide CopyOf;
    hide PassageCopy;
    var ps := PassagesOf(a, nid);
    var i :| 0 <= i < |ps| && PassageCopies(ps, pid0, fid)[i] == c;
    PassageAt(a, nid, pid0, i);
    PassageCopyAt(db, a, ps[i], nid, fid, pid0 + i, fmap, NewIds(ps, pid0));
  }

  lemma PassagesFresh(db: Db, db': Db, ps: seq<Row>, pid0: int, fid: int)
    requires FreshFrom(db, Passages, pid0) && Extends(db, db')
    requires AddsFrom(db, db', Passages, PassageCopies(ps, pid0, fid))
    ensures FreshFrom(db', Passages, pid0 + |ps|)
  {
    hide KeyOf;
    hide PassageCopy;
    hide Supported;
    var copies := PassageCopies(ps, pid0, fid);
    forall m | m >= pid0 + |ps| ensures (Passages, [Int(m)]) !in db' {
      var x := (Passages, [Int(m)]);
      if x in db' {
        assert x !in db;
        var i :| 0 <= i < |copies| && copies[i] == db'[x];
        PassageCopyKey(ps[i], pid0 + i, fid);
      }
    }
  }

  /** A file's passages get consecutive new ids and the new id of the file. */
  lemma WithPassagesFacts(db: Db, a: Answer, nid: Value, fid: int, pid0: int, fmap: map<Value, int>)
    requires FreshFrom(db, Passages, pid0) && Held(db, Files, Int(fid)) && nid in fmap && fmap[nid] == fid
    requires DistinctIds(Rows(a, Passages), "passage_id")
    ensures var db', ps := WithPassages(db, a, nid, fid, pid0), PassagesOf(a, nid);
      && Extends(db, db') && OnlyCopies(db, db', a, fmap, NewIds(ps, pid0)) && OnlyIn(db, db', Passages)
      && IdsHeld(db', Passages, NewIds(ps, pid0))
      && FreshFrom(db', Passages, pid0 + |ps|)
  {
    var ps := PassagesOf(a, nid);
    WhereDistinct(Rows(a, Passages), In("file_id", {nid}), "passage_id");
    forall c | c in PassageCopies(ps, pid0, fid)
      ensures Supported(db, Passages, c) && CopyOf(Passages, c, a, fmap, NewIds(ps, pid0))
    {
      EachPassageCopy(db, a, nid, fid, pid0, fmap, c);
    }
    InsertsCopies(db, Passages, PassageCopies(ps, pid0, fid), a, fmap, NewIds(ps, pid0));
    var db' := WithPassages(db, a, nid, fid, pid0);
    CopiedIdsHeld(db', ps, PassageCopies(ps, pid0, fid), pid0, fid);
    PassagesFresh(db, db', ps, pid0, fid);
  }

  /** A row renumbered with a parent that is held is supported, if its other links are. */
  lemma RenumberedSupported(db: Db, t: Table, column: string, rows: seq<Row>, ids: map<Value, int>)
    requires column in Columns(t) ==> IdsHeld(db, ParentOf(column), ids)
    requires forall c, d :: c in Columns(t) && c != column && d in rows ==> Held(db, ParentOf(c), Get(d, c))
    ensures forall d :: d in Renumbered(rows, column, ids) ==> Supported(db, t, d)
  {
    forall d | d in Renumbered(rows, column, ids) ensures Supported(db, t, d) {
      var e :| e in rows && Get(e, column) in ids && d == e[column := Int(ids[Get(e, column)])];
      forall c | c in Columns(t) && Get(d, c) != Null ensures Held(db, ParentOf(c), Get(d, c)) {
        if c != column {
          assert Get(d, c) == Get(e, c);
        }
      }
    }
  }

  lemma WithTagsFacts(db: Db, a: Answer, nid: Value, fid: int, fmap: map<Value, int>, pmap: map<Value, int>)
    requires Held(db, Files, Int(fid)) && nid in fmap && fmap[nid] == fid
    ensures var db' := WithTags(db, a, nid, fid);
      Extends(db, db') && OnlyCopies(db, db', a, fmap, pmap) && OnlyIn(db, db', FileTags)
  {
    RenumberedSupported(db, FileTags, "file_id", Rows(a, FileTags), map[nid := fid]);
    InsertsCopies(db, FileTags, Renumbered(Rows(a, FileTags), "file_id", map[nid := fid]), a, fmap, pmap);
  }

  /** A credit is copied only where the recording it names is held. */
  lemma WithPassageCreditsFacts(db: Db, a: Answer, fmap: map<Value, int>, ids: map<Value, int>)
    requires IdsHeld(db, Passages, ids)
    ensures var db' := WithPassageCredits(db, a, ids);
      Extends(db, db') && OnlyCopies(db, db', a, fmap, ids) && OnlyIn(db, db', PassageRecordings)
  {
    var rows := Where(Rows(a, PassageRecordings), HeldIn(db, Recordings, "mbid"));
    RenumberedSupported(db, PassageRecordings, "passage_id", rows, ids);
    InsertsCopies(db, PassageRecordings, Renumbered(rows, "passage_id", ids), a, fmap, ids);
  }

  lemma WithChecksFacts(db: Db, a: Answer, fmap: map<Value, int>, ids: map<Value, int>)
    ensures var db' := WithChecks(db, a, ids);
      Extends(db, db') && OnlyCopies(db, db', a, fmap, ids) && OnlyIn(db, db', IdChecks)
  {
    RenumberedSupported(db, IdChecks, "passage_id", Rows(a, IdChecks), ids);
    InsertsCopies(db, IdChecks, Renumbered(Rows(a, IdChecks), "passage_id", ids), a, fmap, ids);
  }

  lemma WithFileReleasesFacts(db: Db, a: Answer, d: Row, md5: Value, fmap: map<Value, int>, pmap: map<Value, int>)
    requires d in Rows(a, Files) && Get(d, "file_id") in fmap && md5 == Get(d, "audio_md5")
    ensures var db' := WithFileReleases(db, a, md5);
      Extends(db, db') && OnlyCopies(db, db', a, fmap, pmap) && OnlyIn(db, db', FileReleases)
  {
    var rows := Where(Rows(a, FileReleases), In("audio_md5", {md5}));
    forall r | r in rows ensures Supported(db, FileReleases, r) && CopyOf(FileReleases, r, a, fmap, pmap) {
      FileReleaseCopy(db, a, d, r, fmap, pmap);
    }
    hide CopyOf;
    hide Supported;
    InsertsCopies(db, FileReleases, rows, a, fmap, pmap);
  }

  lemma FileReleaseCopy(db: Db, a: Answer, d: Row, r: Row, fmap: map<Value, int>, pmap: map<Value, int>)
    requires d in Rows(a, Files) && Get(d, "file_id") in fmap && r in Rows(a, FileReleases)
    requires Get(r, "audio_md5") == Get(d, "audio_md5")
    ensures Supported(db, FileReleases, r) && CopyOf(FileReleases, r, a, fmap, pmap)
  {
  }

  lemma OnlyCopiesTwice(db: Db, db1: Db, db2: Db, a: Answer, fmap1: map<Value, int>, pmap1: map<Value, int>,
                        fmap: map<Value, int>, pmap: map<Value, int>)
    requires Extends(db, db1) && Extends(db1, db2)
    requires OnlyCopies(db, db1, a, fmap1, pmap1) && OnlyCopies(db1, db2, a, fmap, pmap)
    requires forall v :: v in fmap1 ==> v in fmap && fmap[v] == fmap1[v]
    requires forall v :: v in pmap1 ==> v in pmap && pmap[v] == pmap1[v]
    ensures OnlyCopies(db, db2, a, fmap, pmap)
  {
    forall x | x in db2 && x !in db ensures CopyOf(x.0, db2[x], a, fmap, pmap) {
      if x in db1 {
        CopyOfMore(x.0, db1[x], a, fmap1, pmap1, fmap, pmap);
      }
    }
  }

  /** What happens to a file's passages after they are copied adds copies, and neither files nor passages. */
  lemma HangersFacts(db: Db, a: Answer, d: Row, nid: Value, fid: int, fmap: map<Value, int>, ids: map<Value, int>)
    requires Held(db, Files, Int(fid)) && nid in fmap && fmap[nid] == fid && IdsHeld(db, Passages, ids)
    requires d in Rows(a, Files) && nid == Get(d, "file_id")
    ensures var db' := WithHangers(db, a, d, fid, ids);
      && Extends(db, db') && OnlyCopies(db, db', a, fmap, ids)
      && Leaves(db, db', Files) && Leaves(db, db', Passages)
  {
    var md5 := Get(d, "audio_md5");
    var db3 := WithTags(db, a, nid, fid);
    WithTagsFacts(db, a, nid, fid, fmap, ids);
    var db4 := WithPassageCredits(db3, a, ids);
    WithPassageCreditsFacts(db3, a, fmap, ids);
    var db5 := WithChecks(db4, a, ids);
    WithChecksFacts(db4, a, fmap, ids);
    WithFileReleasesFacts(db5, a, d, md5, fmap, ids);
    ExtendsTwice(db, db3, db4);
    OnlyCopiesTwice(db, db3, db4, a, fmap, ids, fmap, ids);
    ExtendsTwice(db, db4, db5);
    OnlyCopiesTwice(db, db4, db5, a, fmap, ids, fmap, ids);
    ExtendsTwice(db, db5, WithFileReleases(db5, a, md5));
    OnlyCopiesTwice(db, db5, WithFileReleases(db5, a, md5), a, fmap, ids, fmap, ids);
  }

  /**
   One file copied: nothing held changes, everything added is a renamed copy of the node's, and the ids
   given out are new.
   */
  lemma CopyFileFacts(db: Db, a: Answer, d: Row, fid: int, pid0: int, dest: Value, stamp: Value)
    requires d in Rows(a, Files) && DistinctIds(Rows(a, Passages), "passage_id")
    requires FreshFrom(db, Files, fid) && FreshFrom(db, Passages, pid0)
    ensures var db', ps := CopyFile(db, a, d, fid, pid0, dest, stamp), PassagesOf(a, Get(d, "file_id"));
      && Extends(db, db') && OnlyCopies(db, db', a, map[Get(d, "file_id") := fid], NewIds(ps, pid0))
      && FreshFrom(db', Files, fid + 1) && FreshFrom(db', Passages, pid0 + |ps|)
      && Held(db', Files, Int(fid)) && db'[(Files, [Int(fid)])] == FileCopy(d, fid, dest, stamp)
      && IdsHeld(db', Passages, NewIds(ps, pid0))
  {
    var nid := Get(d, "file_id");
    var ps, fmap := PassagesOf(a, nid), map[nid := fid];
    var ids := NewIds(ps, pid0);
    var db1 := WithFile(db, d, fid, dest, stamp);
    WithFileFacts(db, a, d, fid, dest, stamp, fmap);
    var db2 := WithPassages(db1, a, nid, fid, pid0);
    WithPassagesFacts(db1, a, nid, fid, pid0, fmap);
    HangersFacts(db2, a, d, nid, fid, fmap, ids);
    var db6 := CopyFile(db, a, d, fid, pid0, dest, stamp);
    ExtendsTwice(db, db1, db2);
    OnlyCopiesTwice(db, db1, db2, a, fmap, map[], fmap, ids);
    ExtendsTwice(db, db2, db6);
    OnlyCopiesTwice(db, db2, db6, a, fmap, ids, fmap, ids);
  }

  // ------------------------------------------------------------ files copied whole

  /** A copied passage is held with everything the node hangs on it; a credit where its recording is held. */
  ghost predicate PassageWhole(base: Db, db: Db, a: Answer, p: Row, fid: int, pid: int)
  {
    && (Passages, [Int(pid)]) in db && db[(Passages, [Int(pid)])] == PassageCopy(p, pid, fid)
    && (forall r :: r in Rows(a, IdChecks) && Get(r, "passage_id") == Get(p, "passage_id") ==>
          (IdChecks, [Int(pid)]) in db)
    && (forall r :: r in Rows(a, PassageRecordings) && Get(r, "passage_id") == Get(p, "passage_id") ==>
          Held(base, Recordings, Get(r, "mbid")) ==> (PassageRecordings, [Int(pid), Get(r, "mbid")]) in db)
  }

  ghost predicate PassagesWhole(base: Db, db: Db, a: Answer, nid: Value, fid: int, pmap: map<Value, int>)
  {
    forall p :: p in Rows(a, Passages) && Get(p, "file_id") == nid ==>
      Get(p, "passage_id") in pmap && PassageWhole(base, db, a, p, fid, pmap[Get(p, "passage_id")])
  }

  /** A copied file is held with its tags, the release it was taken from, and all its passages. */
  ghost predicate FileWhole(base: Db, db: Db, a: Answer, d: Row, fid: int, pmap: map<Value, int>)
  {
    && (Files, [Int(fid)]) in db && Get(db[(Files, [Int(fid)])], "audio_md5") == Get(d, "audio_md5")
    && (forall r :: r in Rows(a, FileTags) && Get(r, "file_id") == Get(d, "file_id") ==> (FileTags, [Int(fid)]) in db)
    && (forall r :: r in Rows(a, FileReleases) && Get(r, "audio_md5") == Get(d, "audio_md5") ==>
          (FileReleases, [Get(d, "audio_md5")]) in db)
    && PassagesWhole(base, db, a, Get(d, "file_id"), fid, pmap)
  }

  /** What is whole stays whole when rows are added and other passages renamed. */
  lemma FileStaysWhole(base: Db, base': Db, db: Db, db': Db, a: Answer, d: Row, fid: int,
                       pmap: map<Value, int>, pmap': map<Value, int>)
    requires FileWhole(base, db, a, d, fid, pmap) && Extends(db, db') && Extends(base', base)
    requires forall v :: v in pmap ==> v in pmap' && pmap'[v] == pmap[v]
    ensures FileWhole(base', db', a, d, fid, pmap')
  {
    forall p | p in Rows(a, Passages) && Get(p, "file_id") == Get(d, "file_id")
      ensures Get(p, "passage_id") in pmap' && PassageWhole(base', db', a, p, fid, pmap'[Get(p, "passage_id")])
    {
      PassageStaysWhole(base, base', db, db', a, p, fid, pmap[Get(p, "passage_id")]);
    }
  }

  lemma PassageStaysWhole(base: Db, base': Db, db: Db, db': Db, a: Answer, p: Row, fid: int, pid: int)
    requires PassageWhole(base, db, a, p, fid, pid) && Extends(db, db') && Extends(base', base)
    ensures PassageWhole(base', db', a, p, fid, pid)
  {
  }

  /** A renumbered row's key is held once it was inserted. */
  lemma RenumberedHeld(db: Db, t: Table, column: string, rows: seq<Row>, ids: map<Value, int>, r: Row)
    requires forall d :: d in Renumbered(rows, column, ids) ==> (t, KeyOf(t, d)) in db
    requires r in rows && Get(r, column) in ids
    ensures (t, KeyOf(t, r[column := Int(ids[Get(r, column)])])) in db
  {
    assert r[column := Int(ids[Get(r, column)])] in Renumbered(rows, column, ids);
  }

  lemma TagsInserted(db: Db, a: Answer, nid: Value, fid: int)
    requires Held(db, Files, Int(fid))
    ensures forall r :: r in Rows(a, FileTags) && Get(r, "file_id") == nid ==>
      (FileTags, [Int(fid)]) in WithTags(db, a, nid, fid)
  {
    var ids := map[nid := fid];
    RenumberedSupported(db, FileTags, "file_id", Rows(a, FileTags), ids);
    InsertAllFacts(db, FileTags, Renumbered(Rows(a, FileTags), "file_id", ids));
    forall r | r in Rows(a, FileTags) && Get(r, "file_id") == nid
      ensures (FileTags, [Int(fid)]) in WithTags(db, a, nid, fid)
    {
      RenumberedHeld(WithTags(db, a, nid, fid), FileTags, "file_id", Rows(a, FileTags), ids, r);
      IdKey(FileTags, r["file_id" := Int(fid)], "file_id", fid);
    }
  }

  lemma CreditKey(r: Row, pid: int)
    ensures KeyOf(PassageRecordings, r["passage_id" := Int(pid)]) == [Int(pid), Get(r, "mbid")]
  {
    assert Get(r["passage_id" := Int(pid)], "mbid") == Get(r, "mbid");
  }

  lemma CreditsInserted(db: Db, a: Answer, ids: map<Value, int>, r: Row)
    requires IdsHeld(db, Passages, ids) && r in Rows(a, PassageRecordings) && Get(r, "passage_id") in ids
    requires Held(db, Recordings, Get(r, "mbid"))
    ensures (PassageRecordings, [Int(ids[Get(r, "passage_id")]), Get(r, "mbid")]) in WithPassageCredits(db, a, ids)
  {
    var rows := Where(Rows(a, PassageRecordings), HeldIn(db, Recordings, "mbid"));
    RenumberedSupported(db, PassageRecordings, "passage_id", rows, ids);
    InsertAllFacts(db, PassageRecordings, Renumbered(rows, "passage_id", ids));
    RenumberedHeld(WithPassageCredits(db, a, ids), PassageRecordings, "passage_id", rows, ids, r);
    CreditKey(r, ids[Get(r, "passage_id")]);
  }

  lemma ChecksInserted(db: Db, a: Answer, ids: map<Value, int>, r: Row)
    requires r in Rows(a, IdChecks) && Get(r, "passage_id") in ids
    ensures (IdChecks, [Int(ids[Get(r, "passage_id")])]) in WithChecks(db, a, ids)
  {
    RenumberedSupported(db, IdChecks, "passage_id", Rows(a, IdChecks), ids);
    InsertAllFacts(db, IdChecks, Renumbered(Rows(a, IdChecks), "passage_id", ids));
    RenumberedHeld(WithChecks(db, a, ids), IdChecks, "passage_id", Rows(a, IdChecks), ids, r);
    IdKey(IdChecks, r["passage_id" := Int(ids[Get(r, "passage_id")])], "passage_id", ids[Get(r, "passage_id")]);
  }

  lemma ReleasesInserted(db: Db, a: Answer, md5: Value)
    ensures forall r :: r in Rows(a, FileReleases) && Get(r, "audio_md5") == md5 ==>
      (FileReleases, [md5]) in WithFileReleases(db, a, md5)
  {
    var rows := Where(Rows(a, FileReleases), In("audio_md5", {md5}));
    InsertFreeRows(db, FileReleases, rows);
    forall r | r in Rows(a, FileReleases) && Get(r, "audio_md5") == md5
      ensures (FileReleases, [md5]) in WithFileReleases(db, a, md5)
    {
      assert r in rows && KeyOf(FileReleases, r) == [md5];
    }
  }

  /** Renamed passages have their checks, and their credits where the recordings are held. */
  ghost predicate PassagesHung(base: Db, db: Db, a: Answer, ids: map<Value, int>)
  {
    && (forall r :: r in Rows(a, IdChecks) && Get(r, "passage_id") in ids ==>
          (IdChecks, [Int(ids[Get(r, "passage_id")])]) in db)
    && (forall r :: r in Rows(a, PassageRecordings) && Get(r, "passage_id") in ids ==>
          Held(base, Recordings, Get(r, "mbid")) ==>
          (PassageRecordings, [Int(ids[Get(r, "passage_id")]), Get(r, "mbid")]) in db)
  }

  lemma HungIsWhole(base0: Db, base: Db, db: Db, a: Answer, p: Row, fid: int, ids: map<Value, int>)
    requires PassagesHung(base, db, a, ids) && Extends(base0, base) && Get(p, "passage_id") in ids
    requires (Passages, [Int(ids[Get(p, "passage_id")])]) in db
    requires db[(Passages, [Int(ids[Get(p, "passage_id")])])] == PassageCopy(p, ids[Get(p, "passage_id")], fid)
    ensures PassageWhole(base0, db, a, p, fid, ids[Get(p, "passage_id")])
  {
  }

  lemma RowKept(db: Db, db': Db, x: (Table, Key))
    requires Extends(db, db') && x in db
    ensures x in db' && db'[x] == db[x]
  {
  }

  /** Once everything is hung on a file and its passages, each is whole. */
  lemma HangersWhole(db: Db, a: Answer, d: Row, fid: int, ids: map<Value, int>)
    requires Held(db, Files, Int(fid)) && IdsHeld(db, Passages, ids) && d in Rows(a, Files)
    ensures var db', nid := WithHangers(db, a, d, fid, ids), Get(d, "file_id");
      && (forall r :: r in Rows(a, FileTags) && Get(r, "file_id") == nid ==> (FileTags, [Int(fid)]) in db')
      && (forall r :: r in Rows(a, FileReleases) && Get(r, "audio_md5") == Get(d, "audio_md5") ==>
            (FileReleases, [Get(d, "audio_md5")]) in db')
      && PassagesHung(db, db', a, ids)
  {
    hide WithTags;
    hide WithPassageCredits;
    hide WithChecks;
    hide WithFileReleases;
    var nid, fmap := Get(d, "file_id"), map[Get(d, "file_id") := fid];
    var db1 := WithTags(db, a, nid, fid);
    WithTagsFacts(db, a, nid, fid, fmap, ids);
    TagsInserted(db, a, nid, fid);
    var db2 := WithPassageCredits(db1, a, ids);
    WithPassageCreditsFacts(db1, a, fmap, ids);
    forall r | r in Rows(a, PassageRecordings) && Get(r, "passage_id") in ids && Held(db, Recordings, Get(r, "mbid"))
      ensures (PassageRecordings, [Int(ids[Get(r, "passage_id")]), Get(r, "mbid")]) in db2
    {
      CreditsInserted(db1, a, ids, r);
    }
    var db3 := WithChecks(db2, a, ids);
    WithChecksFacts(db2, a, fmap, ids);
    forall r | r in Rows(a, IdChecks) && Get(r, "passage_id") in ids
      ensures (IdChecks, [Int(ids[Get(r, "passage_id")])]) in db3
    {
      ChecksInserted(db2, a, ids, r);
    }
    WithFileReleasesFacts(db3, a, d, Get(d, "audio_md5"), fmap, ids);
    ReleasesInserted(db3, a, Get(d, "audio_md5"));
  }

  lemma PlaceOfPassage(a: Answer, nid: Value, p: Row) returns (i: nat)
    requires DistinctIds(Rows(a, Passages), "passage_id") && p in Rows(a, Passages) && Get(p, "file_id") == nid
    ensures DistinctIds(PassagesOf(a, nid), "passage_id") && i < |PassagesOf(a, nid)| && PassagesOf(a, nid)[i] == p
  {
    WhereDistinct(Rows(a, Passages), In("file_id", {nid}), "passage_id");
    assert p in PassagesOf(a, nid);
    i :| 0 <= i < |PassagesOf(a, nid)| && PassagesOf(a, nid)[i] == p;
  }

  lemma NewIdAt(ps: seq<Row>, pid0: int, i: nat)
    requires DistinctIds(ps, "passage_id") && i < |ps|
    ensures Get(ps[i], "passage_id") in NewIds(ps, pid0) && NewIds(ps, pid0)[Get(ps[i], "passage_id")] == pid0 + i
  {
    NewIdsFacts(ps, pid0);
  }

  /** A copied passage's row, before anything hangs on it. */
  lemma PassageInserted(db: Db, a: Answer, nid: Value, fid: int, pid0: int, p: Row)
    requires FreshFrom(db, Passages, pid0) && Held(db, Files, Int(fid)) && DistinctIds(Rows(a, Passages), "passage_id")
    requires p in Rows(a, Passages) && Get(p, "file_id") == nid
    ensures var ids, db' := NewIds(PassagesOf(a, nid), pid0), WithPassages(db, a, nid, fid, pid0);
      && Get(p, "passage_id") in ids && (Passages, [Int(ids[Get(p, "passage_id")])]) in db'
      && db'[(Passages, [Int(ids[Get(p, "passage_id")])])] == PassageCopy(p, ids[Get(p, "passage_id")], fid)
  {
    hide NewIds;
    hide WithPassages;
    hide PassagesOf;
    hide FreshFrom;
    hide DistinctIds;
    hide Extends;
    hide OnlyCopies;
    hide OnlyIn;
    hide PassageCopy;
    hide Get;
    var i := PlaceOfPassage(a, nid, p);
    WithPassagesFacts(db, a, nid, fid, pid0, map[nid := fid]);
    NewIdAt(PassagesOf(a, nid), pid0, i);
    RowUnderNewId(db, a, nid, fid, pid0, i);
  }

  lemma RowUnderNewId(db: Db, a: Answer, nid: Value, fid: int, pid0: int, i: nat)
    requires FreshFrom(db, Passages, pid0) && Held(db, Files, Int(fid)) && DistinctIds(Rows(a, Passages), "passage_id")
    requires i < |PassagesOf(a, nid)| && (Passages, [Int(pid0 + i)]) in WithPassages(db, a, nid, fid, pid0)
    ensures WithPassages(db, a, nid, fid, pid0)[(Passages, [Int(pid0 + i)])]
      == PassageCopy(PassagesOf(a, nid)[i], pid0 + i, fid)
  {
    hide Where;
    var ps, copies := PassagesOf(a, nid), PassageCopies(PassagesOf(a, nid), pid0, fid);
    var db', x := WithPassages(db, a, nid, fid, pid0), (Passages, [Int(pid0 + i)]);
    AllSupported(db, a, nid, fid, pid0, map[nid := fid]);
    InsertAllFacts(db, Passages, copies);
    assert x !in db && db'[x] in copies;
    PassageKey(db'[x], pid0 + i);
    CopyAtKey(copies, ps, pid0, fid, db'[x], i);
  }

  lemma PassageKey(row: Row, n: int)
    requires KeyOf(Passages, row) == [Int(n)]
    ensures Get(row, "passage_id") == Int(n)
  {
    assert KeyOf(Passages, row)[0] == Get(row, "passage_id");
  }

  lemma AllSupported(db: Db, a: Answer, nid: Value, fid: int, pid0: int, fmap: map<Value, int>)
    requires Held(db, Files, Int(fid)) && nid in fmap && fmap[nid] == fid
    requires DistinctIds(Rows(a, Passages), "passage_id")
    ensures forall c :: c in PassageCopies(PassagesOf(a, nid), pid0, fid) ==> Supported(db, Passages, c)
  {
    forall c | c in PassageCopies(PassagesOf(a, nid), pid0, fid) ensures Supported(db, Passages, c) {
      EachPassageCopy(db, a, nid, fid, pid0, fmap, c);
    }
  }

  /** Of a file's copied passages, the one under the i-th new id is the copy of the i-th. */
  lemma CopyAtKey(copies: seq<Row>, ps: seq<Row>, pid0: int, fid: int, row: Row, i: nat)
    requires copies == PassageCopies(ps, pid0, fid) && i < |ps|
    requires row in copies && Get(row, "passage_id") == Int(pid0 + i)
    ensures row == PassageCopy(ps[i], pid0 + i, fid)
  {
    var j :| 0 <= j < |copies| && copies[j] == row;
    assert Get(copies[j], "passage_id") == Int(pid0 + j);
  }

  /** One file copied is whole. */
  lemma CopyFileWhole(db: Db, a: Answer, d: Row, fid: int, pid0: int, dest: Value, stamp: Value)
    requires d in Rows(a, Files) && DistinctIds(Rows(a, Passages), "passage_id")
    requires FreshFrom(db, Files, fid) && FreshFrom(db, Passages, pid0)
    ensures FileWhole(db, CopyFile(db, a, d, fid, pid0, dest, stamp), a, d, fid,
                      NewIds(PassagesOf(a, Get(d, "file_id")), pid0))
  {
    hide NewIds;
    hide WithFile;
    hide WithPassages;
    hide WithHangers;
    hide PassagesOf;
    hide PassagesWhole;
    var nid := Get(d, "file_id");
    var ids, fmap := NewIds(PassagesOf(a, nid), pid0), map[nid := fid];
    var db1 := WithFile(db, d, fid, dest, stamp);
    WithFileFacts(db, a, d, fid, dest, stamp, fmap);
    var db2 := WithPassages(db1, a, nid, fid, pid0);
    WithPassagesFacts(db1, a, nid, fid, pid0, fmap);
    EachPassageWhole(db, db1, a, d, fid, pid0);
    hide FileWhole;
    HungWhole(db, db2, a, d, fid, ids);
  }

  lemma HungWhole(base: Db, db: Db, a: Answer, d: Row, fid: int, ids: map<Value, int>)
    requires d in Rows(a, Files) && IdsHeld(db, Passages, ids)
    requires (Files, [Int(fid)]) in db && Get(db[(Files, [Int(fid)])], "audio_md5") == Get(d, "audio_md5")
    requires PassagesWhole(base, WithHangers(db, a, d, fid, ids), a, Get(d, "file_id"), fid, ids)
    ensures FileWhole(base, WithHangers(db, a, d, fid, ids), a, d, fid, ids)
  {
    hide PassagesWhole;
    hide WithHangers;
    HangersFacts(db, a, d, Get(d, "file_id"), fid, map[Get(d, "file_id") := fid], ids);
    HangersWhole(db, a, d, fid, ids);
  }

  lemma EachPassageWhole(base: Db, db: Db, a: Answer, d: Row, fid: int, pid0: int)
    requires FreshFrom(db, Passages, pid0) && Held(db, Files, Int(fid)) && DistinctIds(Rows(a, Passages), "passage_id")
    requires d in Rows(a, Files) && Extends(base, db)
    ensures var nid := Get(d, "file_id");
      var ids := NewIds(PassagesOf(a, nid), pid0);
      PassagesWhole(base, WithHangers(WithPassages(db, a, nid, fid, pid0), a, d, fid, ids), a, nid, fid, ids)
  {
    hide NewIds;
    hide WithPassages;
    hide WithHangers;
    hide PassagesOf;
    var nid := Get(d, "file_id");
    var ids, fmap := NewIds(PassagesOf(a, nid), pid0), map[nid := fid];
    var db1 := WithPassages(db, a, nid, fid, pid0);
    WithPassagesFacts(db, a, nid, fid, pid0, fmap);
    HangersFacts(db1, a, d, nid, fid, fmap, ids);
    HangersWhole(db1, a, d, fid, ids);
    var db' := WithHangers(db1, a, d, fid, ids);
    ExtendsTwice(base, db, db1);
    hide Extends;
    hide OnlyCopies;
    hide OnlyIn;
    hide Leaves;
    hide PassagesHung;
    hide PassageWhole;
    hide PassageCopy;
    hide FreshFrom;
    forall p | p in Rows(a, Passages) && Get(p, "file_id") == nid
      ensures Get(p, "passage_id") in ids
      ensures PassageWhole(base, db', a, p, fid, ids[Get(p, "passage_id")])
    {
      PassageInserted(db, a, nid, fid, pid0, p);
      RowKept(db1, db', (Passages, [Int(ids[Get(p, "passage_id")])]));
      HungIsWhole(base, db1, db', a, p, fid, ids);
    }
  }

  /** Whose file ids a renaming may mention. */
  ghost predicate KeysAmong(fmap: map<Value, int>, files: seq<Row>)
  {
    forall v :: v in fmap ==> exists d :: d in files && Get(d, "file_id") == v
  }

  /** Whose passage ids a renaming may mention: those of passages of the renamed files. */
  ghost predicate PassagesAmong(pmap: map<Value, int>, fmap: map<Value, int>, a: Answer)
  {
    forall v :: v in pmap ==>
      exists p :: p in Rows(a, Passages) && Get(p, "passage_id") == v && Get(p, "file_id") in fmap
  }

  /** A renaming of a node's ids: injective, into ids from n on. */
  ghost predicate Renaming(ids: map<Value, int>, n: int)
  {
    Injective(ids) && forall v :: v in ids ==> ids[v] >= n
  }

  lemma SameRow(rows: seq<Row>, column: string, p: Row, q: Row)
    requires DistinctIds(rows, column) && p in rows && q in rows && Get(p, column) == Get(q, column)
    ensures p == q
  {
    var i :| 0 <= i < |rows| && rows[i] == p;
    var j :| 0 <= j < |rows| && rows[j] == q;
  }

  lemma JoinRenamings(first: map<Value, int>, rest: map<Value, int>, lo: int, mid: int)
    requires Injective(first) && ValuesIn(first, lo, mid) && Renaming(rest, mid) && lo <= mid
    requires forall v :: v in first ==> v !in rest
    ensures Renaming(first + rest, lo)
    ensures forall v :: v in first ==> v in first + rest && (first + rest)[v] == first[v]
    ensures forall v :: v in rest ==> v in first + rest && (first + rest)[v] == rest[v]
  {
    var all := first + rest;
    forall v | v in all ensures all[v] >= lo && (v in first <==> all[v] < mid) {
      if v in first {
        assert all[v] == first[v];
      } else {
        assert all[v] == rest[v];
      }
    }
  }

  /** One file's passages are none of the other files'. */
  lemma PassagesApart(a: Answer, nid: Value, pid0: int, rest: map<Value, int>, fmap: map<Value, int>)
    requires DistinctIds(Rows(a, Passages), "passage_id") && PassagesAmong(rest, fmap, a) && nid !in fmap
    ensures forall v :: v in NewIds(PassagesOf(a, nid), pid0) ==> v !in rest
    ensures PassagesAmong(NewIds(PassagesOf(a, nid), pid0), map[nid := 0], a)
  {
    var ps := PassagesOf(a, nid);
    WhereDistinct(Rows(a, Passages), In("file_id", {nid}), "passage_id");
    NewIdsFacts(ps, pid0);
    forall v | v in NewIds(ps, pid0)
      ensures v !in rest
      ensures exists p :: p in Rows(a, Passages) && Get(p, "passage_id") == v && Get(p, "file_id") in map[nid := 0]
    {
      var i :| 0 <= i < |ps| && Get(ps[i], "passage_id") == v;
      assert ps[i] in ps;
      forall p | p in Rows(a, Passages) && Get(p, "passage_id") == v ensures p == ps[i] {
        SameRow(Rows(a, Passages), "passage_id", p, ps[i]);
      }
    }
  }

  /**
   A node's files copied: nothing held is touched; everything added is the node's, under an injective
   renaming of its file and passage ids into ids no row had, each copied row hanging on the copy of its own
   parent; every wanted audio is held; every file copied is whole; and only audio that was not held comes in.
   */
  ghost predicate FilesCopied(db: Db, db': Db, a: Answer, files: seq<Row>, want: set<Value>, fid: int, pid0: int,
                              fmap: map<Value, int>, pmap: map<Value, int>)
  {
    && Extends(db, db') && OnlyCopies(db, db', a, fmap, pmap)
    && IdsGiven(a, files, fid, pid0, fmap, pmap)
    && AudioHeld(db', files, want)
    && FilesWhole(db, db', a, files, fmap, pmap) && OnlyNewAudio(db, files, want, fmap)
  }

  /** Every file copied is whole. */
  ghost predicate FilesWhole(base: Db, db: Db, a: Answer, files: seq<Row>, fmap: map<Value, int>, pmap: map<Value, int>)
  {
    forall d :: d in files && Get(d, "file_id") in fmap ==> FileWhole(base, db, a, d, fmap[Get(d, "file_id")], pmap)
  }

  /** A file is copied only when its audio is wanted and was not held. */
  ghost predicate OnlyNewAudio(db: Db, files: seq<Row>, want: set<Value>, fmap: map<Value, int>)
  {
    forall d :: d in files && Get(d, "file_id") in fmap ==>
      Get(d, "audio_md5") in want && !HoldsAudio(db, Get(d, "audio_md5"))
  }

  ghost predicate IdsGiven(a: Answer, files: seq<Row>, fid: int, pid0: int, fmap: map<Value, int>,
                           pmap: map<Value, int>)
  {
    && Renaming(fmap, fid) && Renaming(pmap, pid0)
    && KeysAmong(fmap, files) && PassagesAmong(pmap, fmap, a)
  }

  ghost predicate AudioHeld(db: Db, files: seq<Row>, want: set<Value>)
  {
    forall d :: d in files && Get(d, "audio_md5") in want ==> HoldsAudio(db, Get(d, "audio_md5"))
  }

  /** A file passed over. */
  lemma PassOver(db: Db, db': Db, a: Answer, files: seq<Row>, want: set<Value>, fid: int, pid0: int,
                 fmap: map<Value, int>, pmap: map<Value, int>)
    requires files != [] && FilesCopied(db, db', a, files[1..], want, fid, pid0, fmap, pmap)
    requires Get(files[0], "audio_md5") !in want || HoldsAudio(db, Get(files[0], "audio_md5"))
    requires DistinctIds(files, "file_id")
    ensures FilesCopied(db, db', a, files, want, fid, pid0, fmap, pmap)
  {
    hide OnlyCopies;
    hide FilesWhole;
    hide OnlyNewAudio;
    hide AudioHeld;
    hide Extends;
    hide Renaming;
    hide PassagesAmong;
    hide KeysAmong;
    NotYetNamed(files, fmap);
    MoreKeys(files, fmap);
    WholeBesides(db, db', a, files, fmap, pmap);
    NewBesides(db, files, want, fmap);
    AudioStaysHeld(db, db', Get(files[0], "audio_md5"));
    HeldBesides(db', files, want);
  }

  lemma MoreKeys(files: seq<Row>, fmap: map<Value, int>)
    requires files != [] && KeysAmong(fmap, files[1..])
    ensures KeysAmong(fmap, files)
  {
    assert files == [files[0]] + files[1..];
  }

  lemma WholeBesides(base: Db, db: Db, a: Answer, files: seq<Row>, fmap: map<Value, int>, pmap: map<Value, int>)
    requires files != [] && Get(files[0], "file_id") !in fmap && FilesWhole(base, db, a, files[1..], fmap, pmap)
    ensures FilesWhole(base, db, a, files, fmap, pmap)
  {
    hide FileWhole;
    assert files == [files[0]] + files[1..];
  }

  lemma NewBesides(db: Db, files: seq<Row>, want: set<Value>, fmap: map<Value, int>)
    requires files != [] && Get(files[0], "file_id") !in fmap && OnlyNewAudio(db, files[1..], want, fmap)
    ensures OnlyNewAudio(db, files, want, fmap)
  {
    hide HoldsAudio;
    assert files == [files[0]] + files[1..];
  }

  lemma HeldBesides(db: Db, files: seq<Row>, want: set<Value>)
    requires files != [] && AudioHeld(db, files[1..], want)
    requires Get(files[0], "audio_md5") !in want || HoldsAudio(db, Get(files[0], "audio_md5"))
    ensures AudioHeld(db, files, want)
  {
    hide HoldsAudio;
    assert files == [files[0]] + files[1..];
  }

  lemma OthersNamedOtherwise(files: seq<Row>)
    requires files != [] && DistinctIds(files, "file_id")
    ensures forall d :: d in files[1..] ==> Get(d, "file_id") != Get(files[0], "file_id")
  {
  }

  /** A renaming of the later files does not mention the first. */
  lemma NotYetNamed(files: seq<Row>, fmap: map<Value, int>)
    requires files != [] && DistinctIds(files, "file_id") && KeysAmong(fmap, files[1..])
    ensures Get(files[0], "file_id") !in fmap
  {
    OthersNamedOtherwise(files);
  }

  /** The first file copied, and then the rest: all are whole. */
  lemma WholeThenRest(db: Db, db1: Db, db': Db, a: Answer, files: seq<Row>, fid: int, pid0: int,
                      dest: Value, stamp: Value, fmap: map<Value, int>, pmap: map<Value, int>)
    requires files != [] && files[0] in Rows(a, Files) && DistinctIds(Rows(a, Passages), "passage_id")
    requires FreshFrom(db, Files, fid) && FreshFrom(db, Passages, pid0)
    requires db1 == CopyFile(db, a, files[0], fid, pid0, dest, stamp) && Extends(db1, db')
    requires FilesWhole(db1, db', a, files[1..], fmap, pmap)
    requires DistinctIds(files, "file_id") && Get(files[0], "file_id") !in fmap
    requires forall v :: v in NewIds(PassagesOf(a, Get(files[0], "file_id")), pid0) ==> v !in pmap
    ensures var nid := Get(files[0], "file_id");
      FilesWhole(db, db', a, files, map[nid := fid] + fmap, NewIds(PassagesOf(a, nid), pid0) + pmap)
  {
    hide PassagesOf;
    hide OnlyCopies;
    hide FreshFrom;
    hide CopyFile;
    hide FileWhole;
    hide NewIds;
    var d := files[0];
    var nid := Get(d, "file_id");
    var ids := NewIds(PassagesOf(a, nid), pid0);
    var fall, pall := map[nid := fid] + fmap, ids + pmap;
    CopyFileFacts(db, a, d, fid, pid0, dest, stamp);
    CopyFileWhole(db, a, d, fid, pid0, dest, stamp);
    ExtendsSelf(db);
    FileStaysWhole(db, db, db1, db', a, d, fid, ids, pall);
    ExtendsSelf(db');
    OthersNamedOtherwise(files);
    assert files == [d] + files[1..];
    forall e | e in files && Get(e, "file_id") in fall ensures FileWhole(db, db', a, e, fall[Get(e, "file_id")], pall) {
      if e in files[1..] {
        FileStaysWhole(db1, db, db', db', a, e, fmap[Get(e, "file_id")], pmap, pall);
      }
    }
  }

  lemma ExtendsSelf(db: Db)
    ensures Extends(db, db)
  {
  }

  lemma MoreIdsGiven(a: Answer, files: seq<Row>, fid: int, pid0: int, fmap: map<Value, int>, pmap: map<Value, int>)
    requires files != [] && DistinctIds(files, "file_id") && DistinctIds(Rows(a, Passages), "passage_id")
    requires IdsGiven(a, files[1..], fid + 1, pid0 + |PassagesOf(a, Get(files[0], "file_id"))|, fmap, pmap)
    ensures Get(files[0], "file_id") !in fmap
    ensures forall v :: v in NewIds(PassagesOf(a, Get(files[0], "file_id")), pid0) ==> v !in pmap
    ensures var nid := Get(files[0], "file_id");
      IdsGiven(a, files, fid, pid0, map[nid := fid] + fmap, NewIds(PassagesOf(a, nid), pid0) + pmap)
  {
    hide NewIds;
    hide Where;
    hide PassagesAmong;
    var nid := Get(files[0], "file_id");
    var ps := PassagesOf(a, nid);
    var ids := NewIds(ps, pid0);
    assert files == [files[0]] + files[1..];
    WhereDistinct(Rows(a, Passages), In("file_id", {nid}), "passage_id");
    NewIdsFacts(ps, pid0);
    assert nid !in fmap;
    PassagesApart(a, nid, pid0, pmap, fmap);
    JoinRenamings(map[nid := fid], fmap, fid, fid + 1);
    JoinRenamings(ids, pmap, pid0, pid0 + |ps|);
    JoinPassages(a, nid, fid, ids, fmap, pmap);
  }

  lemma CopyFileFresh(db: Db, a: Answer, d: Row, fid: int, pid0: int, dest: Value, stamp: Value, db1: Db)
    requires d in Rows(a, Files) && DistinctIds(Rows(a, Passages), "passage_id")
    requires FreshFrom(db, Files, fid) && FreshFrom(db, Passages, pid0)
    requires db1 == CopyFile(db, a, d, fid, pid0, dest, stamp)
    ensures FreshFrom(db1, Files, fid + 1) && FreshFrom(db1, Passages, pid0 + |PassagesOf(a, Get(d, "file_id"))|)
  {
    CopyFileFacts(db, a, d, fid, pid0, dest, stamp);
  }

  lemma RowsThenRest(db: Db, db1: Db, db': Db, a: Answer, d: Row, fid: int, pid0: int,
                     dest: Value, stamp: Value, fmap: map<Value, int>, pmap: map<Value, int>)
    requires d in Rows(a, Files) && DistinctIds(Rows(a, Passages), "passage_id")
    requires FreshFrom(db, Files, fid) && FreshFrom(db, Passages, pid0)
    requires db1 == CopyFile(db, a, d, fid, pid0, dest, stamp)
    requires Extends(db1, db') && OnlyCopies(db1, db', a, fmap, pmap)
    requires Get(d, "file_id") !in fmap
    requires forall v :: v in NewIds(PassagesOf(a, Get(d, "file_id")), pid0) ==> v !in pmap
    ensures Extends(db, db')
    ensures OnlyCopies(db, db', a, map[Get(d, "file_id") := fid] + fmap,
                       NewIds(PassagesOf(a, Get(d, "file_id")), pid0) + pmap)
  {
    var nid := Get(d, "file_id");
    CopyFileFacts(db, a, d, fid, pid0, dest, stamp);
    JoinCopies(db, db1, db', a, map[nid := fid], NewIds(PassagesOf(a, nid), pid0), fmap, pmap);
  }

  lemma AudioThenRest(db: Db, db1: Db, db': Db, a: Answer, files: seq<Row>, want: set<Value>, fid: int, pid0: int,
                      dest: Value, stamp: Value)
    requires files != [] && files[0] in Rows(a, Files) && DistinctIds(Rows(a, Passages), "passage_id")
    requires FreshFrom(db, Files, fid) && FreshFrom(db, Passages, pid0)
    requires db1 == CopyFile(db, a, files[0], fid, pid0, dest, stamp)
    requires Extends(db1, db') && AudioHeld(db', files[1..], want)
    ensures AudioHeld(db', files, want)
  {
    hide CopyFile;
    var d := files[0];
    assert files == [d] + files[1..];
    CopyFileFacts(db, a, d, fid, pid0, dest, stamp);
    CopiedAudioHeld(db1, fid, Get(d, "audio_md5"));
    AudioStaysHeld(db1, db', Get(d, "audio_md5"));
  }

  lemma CopiedAudioHeld(db: Db, fid: int, md5: Value)
    requires Held(db, Files, Int(fid)) && Get(db[(Files, [Int(fid)])], "audio_md5") == md5
    ensures HoldsAudio(db, md5)
  {
  }

  lemma JoinPassages(a: Answer, nid: Value, fid: int, ids: map<Value, int>, fmap: map<Value, int>,
                     pmap: map<Value, int>)
    requires PassagesAmong(ids, map[nid := 0], a) && PassagesAmong(pmap, fmap, a)
    ensures PassagesAmong(ids + pmap, map[nid := fid] + fmap, a)
  {
    forall v | v in ids + pmap
      ensures exists p ::
        p in Rows(a, Passages) && Get(p, "passage_id") == v && Get(p, "file_id") in map[nid := fid] + fmap
    {
      if v in pmap {
        var p :| p in Rows(a, Passages) && Get(p, "passage_id") == v && Get(p, "file_id") in fmap;
        assert Get(p, "file_id") in map[nid := fid] + fmap;
      } else {
        var p :| p in Rows(a, Passages) && Get(p, "passage_id") == v && Get(p, "file_id") in map[nid := 0];
        assert Get(p, "file_id") in map[nid := fid] + fmap;
      }
    }
  }

  /** One file copied, and then the rest. */
  lemma CopyThenRest(db: Db, db1: Db, db2: Db, a: Answer, files: seq<Row>, want: set<Value>, fid: int, pid0: int,
                     dest: Value, stamp: Value, fmap: map<Value, int>, pmap: map<Value, int>)
    requires files != [] && files[0] in Rows(a, Files)
    requires DistinctIds(files, "file_id") && DistinctIds(Rows(a, Passages), "passage_id")
    requires FreshFrom(db, Files, fid) && FreshFrom(db, Passages, pid0)
    requires Get(files[0], "audio_md5") in want && !HoldsAudio(db, Get(files[0], "audio_md5"))
    requires db1 == CopyFile(db, a, files[0], fid, pid0, dest, stamp)
    requires FilesCopied(db1, db2, a, files[1..], want, fid + 1, pid0 + |PassagesOf(a, Get(files[0], "file_id"))|,
                         fmap, pmap)
    ensures var nid := Get(files[0], "file_id");
      FilesCopied(db, db2, a, files, want, fid, pid0, map[nid := fid] + fmap, NewIds(PassagesOf(a, nid), pid0) + pmap)
  {
    hide CopyFile;
    hide NewIds;
    hide IdsGiven;
    hide OnlyCopies;
    hide FilesWhole;
    hide AudioHeld;
    MoreIdsGiven(a, files, fid, pid0, fmap, pmap);
    RowsThenRest(db, db1, db2, a, files[0], fid, pid0, dest, stamp, fmap, pmap);
    AudioThenRest(db, db1, db2, a, files, want, fid, pid0, dest, stamp);
    WholeThenRest(db, db1, db2, a, files, fid, pid0, dest, stamp, fmap, pmap);
    CopyFileFacts(db, a, files[0], fid, pid0, dest, stamp);
    NewThenRest(db, db1, files, want, fid, fmap);
  }

  /** Audio that was not held after the first file was not held before it. */
  lemma NewThenRest(db: Db, db1: Db, files: seq<Row>, want: set<Value>, fid: int, fmap: map<Value, int>)
    requires files != [] && Extends(db, db1) && OnlyNewAudio(db1, files[1..], want, fmap)
    requires DistinctIds(files, "file_id")
    requires Get(files[0], "audio_md5") in want && !HoldsAudio(db, Get(files[0], "audio_md5"))
    ensures OnlyNewAudio(db, files, want, map[Get(files[0], "file_id") := fid] + fmap)
  {
    OthersNamedOtherwise(files);
    assert files == [files[0]] + files[1..];
    forall e | e in files[1..] ensures HoldsAudio(db, Get(e, "audio_md5")) ==> HoldsAudio(db1, Get(e, "audio_md5")) {
      AudioStaysHeld(db, db1, Get(e, "audio_md5"));
    }
  }

  lemma RestOfFiles(files: seq<Row>, a: Answer)
    requires files != [] && DistinctIds(files, "file_id") && forall d :: d in files ==> d in Rows(a, Files)
    ensures DistinctIds(files[1..], "file_id") && forall d :: d in files[1..] ==> d in Rows(a, Files)
    ensures files[0] in Rows(a, Files)
  {
  }

  lemma {:induction false} CopyFilesFacts(db: Db, db': Db, a: Answer, files: seq<Row>, want: set<Value>, fid: int,
                                          pid0: int, place: Value -> Option<Value>, stamp: Value)
    returns (fmap: map<Value, int>, pmap: map<Value, int>)
    requires CopyFiles(db, a, files, want, fid, pid0, place, stamp) == Some(db')
    requires DistinctIds(Rows(a, Passages), "passage_id") && DistinctIds(files, "file_id")
    requires forall d :: d in files ==> d in Rows(a, Files)
    requires FreshFrom(db, Files, fid) && FreshFrom(db, Passages, pid0)
    ensures FilesCopied(db, db', a, files, want, fid, pid0, fmap, pmap)
    decreases |files|, 1
  {
    if files == [] {
      fmap, pmap := map[], map[];
    } else {
      var d, rest := files[0], files[1..];
      RestOfFiles(files, a);
      if Get(d, "audio_md5") !in want || HoldsAudio(db, Get(d, "audio_md5")) {
        fmap, pmap := CopyFilesFacts(db, db', a, rest, want, fid, pid0, place, stamp);
        PassOver(db, db', a, files, want, fid, pid0, fmap, pmap);
      } else {
        CopyFilesStep(db, db', a, files, want, fid, pid0, place, stamp);
        var dest := place(Get(d, "path")).value;
        CopyFileFresh(db, a, d, fid, pid0, dest, stamp, CopyFile(db, a, d, fid, pid0, dest, stamp));
        fmap, pmap := CopyOneFacts(db, db', a, files, want, fid, pid0, place, stamp, dest,
                                   CopyFile(db, a, d, fid, pid0, dest, stamp));
      }
    }
  }

  lemma CopyFilesStep(db: Db, db': Db, a: Answer, files: seq<Row>, want: set<Value>, fid: int, pid0: int,
                      place: Value -> Option<Value>, stamp: Value)
    requires CopyFiles(db, a, files, want, fid, pid0, place, stamp) == Some(db')
    requires files != [] && Get(files[0], "audio_md5") in want && !HoldsAudio(db, Get(files[0], "audio_md5"))
    ensures place(Get(files[0], "path")).Some?
    ensures CopyFiles(CopyFile(db, a, files[0], fid, pid0, place(Get(files[0], "path")).value, stamp), a, files[1..],
                      want, fid + 1, pid0 + |PassagesOf(a, Get(files[0], "file_id"))|, place, stamp) == Some(db')
  {
    hide CopyFile;
  }

  lemma {:induction false} CopyOneFacts(db: Db, db': Db, a: Answer, files: seq<Row>, want: set<Value>, fid: int,
                                        pid0: int, place: Value -> Option<Value>, stamp: Value, dest: Value, db1: Db)
    returns (fmap: map<Value, int>, pmap: map<Value, int>)
    requires DistinctIds(Rows(a, Passages), "passage_id") && DistinctIds(files, "file_id")
    requires forall d :: d in files ==> d in Rows(a, Files)
    requires FreshFrom(db, Files, fid) && FreshFrom(db, Passages, pid0)
    requires files != [] && db1 == CopyFile(db, a, files[0], fid, pid0, dest, stamp)
    requires FreshFrom(db1, Files, fid + 1)
    requires FreshFrom(db1, Passages, pid0 + |PassagesOf(a, Get(files[0], "file_id"))|)
    requires CopyFiles(db1, a, files[1..], want, fid + 1, pid0 + |PassagesOf(a, Get(files[0], "file_id"))|, place,
                       stamp) == Some(db')
    requires Get(files[0], "audio_md5") in want && !HoldsAudio(db, Get(files[0], "audio_md5"))
    ensures FilesCopied(db, db', a, files, want, fid, pid0, fmap, pmap)
    decreases |files|, 0
  {
    hide CopyFile;
    var nid := Get(files[0], "file_id");
    RestOfFiles(files, a);
    var f, p := CopyFilesFacts(db1, db', a, files[1..], want, fid + 1, pid0 + |PassagesOf(a, nid)|, place, stamp);
    CopyThenRest(db, db1, db', a, files, want, fid, pid0, dest, stamp, f, p);
    fmap, pmap := map[nid := fid] + f, NewIds(PassagesOf(a, nid), pid0) + p;
  }

  lemma AudioStaysHeld(db: Db, db': Db, md5: Value)
    requires Extends(db, db')
    ensures HoldsAudio(db, md5) ==> HoldsAudio(db', md5)
  {
  }

  lemma JoinCopies(db: Db, db1: Db, db2: Db, a: Answer, fmap: map<Value, int>, pmap: map<Value, int>,
                   fmap1: map<Value, int>, pmap1: map<Value, int>)
    requires Extends(db, db1) && Extends(db1, db2)
    requires OnlyCopies(db, db1, a, fmap, pmap) && OnlyCopies(db1, db2, a, fmap1, pmap1)
    requires forall v :: v in fmap ==> v !in fmap1
    requires forall v :: v in pmap ==> v !in pmap1
    ensures Extends(db, db2) && OnlyCopies(db, db2, a, fmap + fmap1, pmap + pmap1)
  {
    ExtendsTwice(db, db1, db2);
    forall x | x in db2 && x !in db ensures CopyOf(x.0, db2[x], a, fmap + fmap1, pmap + pmap1) {
      if x in db1 {
        CopyOfMore(x.0, db1[x], a, fmap, pmap, fmap + fmap1, pmap + pmap1);
      } else {
        CopyOfMore(x.0, db2[x], a, fmap1, pmap1, fmap + fmap1, pmap + pmap1);
      }
    }
  }

  /** (SELECT MAX(id) or 0) + 1 */
  function NextId(db: Db, t: Table): int
  {
    var ids := set x | x in db && x.0 == t && |x.1| == 1 && x.1[0].Int? :: x.1[0].n;
    (if ids == {} then 0 else Max(ids)) + 1
  }

  lemma IdBelowNext(db: Db, t: Table, m: int)
    requires (t, [Int(m)]) in db
    ensures m < NextId(db, t)
  {
    var ids := set x | x in db && x.0 == t && |x.1| == 1 && x.1[0].Int? :: x.1[0].n;
    assert (t, [Int(m)]).1[0].n in ids;
  }

  lemma NextIdFresh(db: Db, t: Table)
    ensures FreshFrom(db, t, NextId(db, t))
  {
    forall m | (t, [Int(m)]) in db ensures m < NextId(db, t) {
      IdBelowNext(db, t, m);
    }
  }

  // ------------------------------------------------------------------ correcting

  /** The rows a removal takes: the finding's, or a release and its cover, both keyed by the release. */
  function Deletes(f: Finding): set<(Table, Key)>
  {
    match f
    case Broken(_, _, _, _, rows) => rows
    case NoTracklist(mbid, _) => {(Releases, [mbid]), (CoverArt, [mbid])}
  }

  predicate Removes(f: Finding, cfg: Config)
  {
    EffectOf(f, cfg).RemoveRows? && f !in cfg.failing
  }

  /** The files a repair of these keys would copy, given ids above every id held. */
  function AddFiles(db: Db, a: Answer, node: string, keys: set<Value>, cfg: Config): Option<Db>
  {
    CopyFiles(db, a, Rows(a, Files), WantedAudio(a, keys), NextId(db, Files), NextId(db, Passages),
              path => cfg.place(node, path), cfg.stamp)
  }

  /** One finding inside its savepoint: what cannot be applied leaves the catalogue as it was. */
  function StepDb(db: Db, f: Finding, cfg: Config): Db
  {
    if f in cfg.failing then db
    else
      match EffectOf(f, cfg)
      case Nothing => db
      case RemoveRows => db - Deletes(f)
      case RepairRows(node, withFiles) =>
        var a := cfg.answers[node];
        var db1 := RepairDb(db, f, a);
        if !withFiles then db1
        else
          match AddFiles(db1, a, node, Offered(f, a), cfg)
          case None => db
          case Some(db2) => db2
  }

  /** The findings decided, one after the other. */
  function CorrectDb(db: Db, fs: seq<Finding>, cfg: Config): Db
  {
    if fs == [] then db else StepDb(CorrectDb(db, fs[..|fs| - 1], cfg), fs[|fs| - 1], cfg)
  }

  /** Findings of a catalogue, none twice. */
  ghost predicate FindingsOf(fs: seq<Finding>, db: Db)
  {
    && (forall f :: f in fs ==> f in Find(db))
    && (forall i, j :: 0 <= i < j < |fs| ==> fs[i] != fs[j])
  }

  /** A node's own unique keys: no file, audio, passage or audio's release listed twice. */
  ghost predicate ProperAnswer(a: Answer)
  {
    && DistinctIds(Rows(a, Files), "file_id") && DistinctIds(Rows(a, Files), "audio_md5")
    && DistinctIds(Rows(a, Passages), "passage_id") && DistinctIds(Rows(a, FileReleases), "audio_md5")
  }

  ghost predicate ProperAnswers(cfg: Config)
  {
    forall n :: n in cfg.answers ==> ProperAnswer(cfg.answers[n])
  }

  /** What the removals among some findings take. */
  ghost function Gone(fs: seq<Finding>, cfg: Config): set<(Table, Key)>
  {
    set f, x | f in fs && Removes(f, cfg) && x in Deletes(f) :: x
  }

  /** A release is named by a tracklist at the start, or had its tracklist repaired since. */
  ghost predicate Listed(db0: Db, fs: seq<Finding>, v: Value)
  {
    NamesRelease(db0, ReleaseRecordings, v) || exists f :: f in fs && f.NoTracklist? && f.mbid == v
  }

  ghost predicate RowsKept(db0: Db, db: Db, gone: set<(Table, Key)>)
  {
    forall x :: x in db0 && x !in gone ==> x in db && db[x] == db0[x]
  }

  ghost predicate NoNewDangling(db0: Db, db: Db, gone: set<(Table, Key)>)
  {
    forall x, c :: Dangles(db, x, c) ==> x !in gone && Dangles(db0, x, c)
  }

  ghost predicate TracksListed(db0: Db, db: Db, fs: seq<Finding>)
  {
    forall x :: x in db && x.0 == ReleaseRecordings ==> Listed(db0, fs, Get(db[x], "release_mbid"))
  }

  ghost predicate ReleasesStayGone(db: Db, gone: set<(Table, Key)>)
  {
    forall v :: (Releases, [v]) in gone ==> (Releases, [v]) !in db
  }

  /** What holds after any of a run's findings. */
  ghost predicate Sound(db0: Db, db: Db, fs: seq<Finding>, cfg: Config)
  {
    && WellKeyed(db)
    && RowsKept(db0, db, Gone(fs, cfg))
    && NoNewDangling(db0, db, Gone(fs, cfg))
    && TracksListed(db0, db, fs)
    && ReleasesStayGone(db, Gone(fs, cfg))
  }

  lemma BrokenFound(db: Db, f: Finding)
    requires f in Find(db) && f.Broken?
    ensures f.rows == RowsOf(db, f.table, f.column, f.owner)
    ensures forall x :: x in f.rows ==> Get(db[x], f.column) in f.missing
    ensures forall v :: v in f.missing ==> !Held(db, ParentOf(f.column), v)
  {
  }

  lemma TracklessFound(db: Db, f: Finding)
    requires f in Find(db) && f.NoTracklist?
    ensures Held(db, Releases, f.mbid) && !NamesRelease(db, ReleaseRecordings, f.mbid)
    ensures f.fileTakenFromIt == NamesRelease(db, FileReleases, f.mbid)
  {
    var x :| x in db && x.0 == Releases && |x.1| == 1 && !NamesRelease(db, ReleaseRecordings, x.1[0])
             && f == NoTracklist(x.1[0], NamesRelease(db, FileReleases, x.1[0]));
    assert x.1 == [f.mbid];
  }

  /** Removals take rows of link tables, releases and covers. */
  lemma GoneTables(db0: Db, fs: seq<Finding>, cfg: Config, x: (Table, Key))
    requires (forall f :: f in fs ==> f in Find(db0)) && x in Gone(fs, cfg)
    ensures IsLinkTable(x.0) || x.0 == Releases || x.0 == CoverArt
    ensures x.0 != CoverArt ==> x in db0
  {
    hide Find;
    hide EffectOf;
    var f :| f in fs && Removes(f, cfg) && x in Deletes(f);
    if f.Broken? {
      BrokenFound(db0, f);
    } else {
      TracklessFound(db0, f);
    }
  }

  lemma GoneLonger(fs: seq<Finding>, f: Finding, cfg: Config)
    ensures Gone(fs + [f], cfg) == Gone(fs, cfg) + if Removes(f, cfg) then Deletes(f) else {}
  {
    assert forall g :: g in fs + [f] <==> g in fs || g == f;
  }

  lemma ListedLonger(db0: Db, fs: seq<Finding>, f: Finding, v: Value)
    requires Listed(db0, fs, v) || (f.NoTracklist? && f.mbid == v)
    ensures Listed(db0, fs + [f], v)
  {
    if Listed(db0, fs, v) {
      if !NamesRelease(db0, ReleaseRecordings, v) {
        var g :| g in fs && g.NoTracklist? && g.mbid == v;
        assert g in fs + [f];
      }
    } else {
      assert f in fs + [f];
    }
  }

  /** A step that only adds keeps the run sound. */
  lemma ExtendSound(db0: Db, db: Db, db': Db, fs: seq<Finding>, f: Finding, cfg: Config, releases: set<Value>)
    requires Sound(db0, db, fs, cfg) && !Removes(f, cfg)
    requires Extends(db, db') && AddsReleases(db, db', releases)
    requires forall v :: v in releases ==> (Releases, [v]) !in Gone(fs, cfg)
    requires AddsTracksOf(db, db', if f.NoTracklist? then {f.mbid} else {})
    ensures Sound(db0, db', fs + [f], cfg)
  {
    GoneLonger(fs, f, cfg);
    ExtendsWellKeyed(db, db');
    ExtendNoNewDangling(db0, db, db', Gone(fs, cfg));
    forall x | x in db' && x.0 == ReleaseRecordings ensures Listed(db0, fs + [f], Get(db'[x], "release_mbid")) {
      ListedLonger(db0, fs, f, Get(db'[x], "release_mbid"));
    }
    forall v | (Releases, [v]) in Gone(fs, cfg) ensures (Releases, [v]) !in db' {
      assert Held(db', Releases, v) && !Held(db, Releases, v) ==> v in releases;
    }
  }

  lemma ExtendNoNewDangling(db0: Db, db: Db, db': Db, gone: set<(Table, Key)>)
    requires NoNewDangling(db0, db, gone) && Extends(db, db')
    ensures NoNewDangling(db0, db', gone)
  {
    forall x, c | Dangles(db', x, c) ensures x !in gone && Dangles(db0, x, c) {
      if x in db {
        assert Dangles(db, x, c);
      }
    }
  }

  /** What a removal takes, a row it leaves does not need: only links go, or a release no tracklist has come to name. */
  lemma RemovedUnneeded(db0: Db, db: Db, fs: seq<Finding>, f: Finding, x: (Table, Key), c: string)
    requires TracksListed(db0, db, fs) && f in Find(db0) && f !in fs && (forall g :: g in fs ==> g in Find(db0))
    requires Removable(f) && x in db && c in Columns(x.0)
    ensures (ParentOf(c), [Get(db[x], c)]) !in Deletes(f)
  {
    hide Find;
    if f.Broken? {
      BrokenFound(db0, f);
    } else {
      TracklessUnlisted(db0, fs, f);
    }
  }

  lemma RemoveNoNewDangling(db0: Db, db: Db, fs: seq<Finding>, f: Finding, cfg: Config)
    requires Sound(db0, db, fs, cfg) && f in Find(db0) && f !in fs && (forall g :: g in fs ==> g in Find(db0))
    requires Removable(f)
    ensures NoNewDangling(db0, db - Deletes(f), Gone(fs, cfg) + Deletes(f))
  {
    var db' := db - Deletes(f);
    forall x, c | Dangles(db', x, c) ensures x !in Gone(fs, cfg) + Deletes(f) && Dangles(db0, x, c) {
      RemovedUnneeded(db0, db, fs, f, x, c);
      assert Dangles(db, x, c);
    }
  }

  /** A release without a tracklist is listed by nothing but its own finding. */
  lemma TracklessUnlisted(db0: Db, fs: seq<Finding>, f: Finding)
    requires f in Find(db0) && f.NoTracklist? && f !in fs && forall g :: g in fs ==> g in Find(db0)
    ensures !Listed(db0, fs, f.mbid)
  {
    TracklessFound(db0, f);
    forall g | g in fs && g.NoTracklist? ensures g.mbid != f.mbid {
      TracklessFound(db0, g);
    }
  }

  lemma RemoveSound(db0: Db, db: Db, fs: seq<Finding>, f: Finding, cfg: Config)
    requires Sound(db0, db, fs, cfg) && f in Find(db0) && f !in fs && (forall g :: g in fs ==> g in Find(db0))
    requires Removes(f, cfg)
    ensures Sound(db0, db - Deletes(f), fs + [f], cfg)
  {
    var db' := db - Deletes(f);
    GoneLonger(fs, f, cfg);
    RemoveNoNewDangling(db0, db, fs, f, cfg);
    forall x | x in db' && x.0 == ReleaseRecordings ensures Listed(db0, fs + [f], Get(db'[x], "release_mbid")) {
      ListedLonger(db0, fs, f, Get(db'[x], "release_mbid"));
    }
  }

  /** A repair adds rows, and of releases and tracklists only what the finding is about. */
  lemma RepairAdds(db0: Db, db: Db, fs: seq<Finding>, f: Finding, a: Answer, cfg: Config)
    requires Sound(db0, db, fs, cfg) && f in Find(db0) && f !in fs && (forall g :: g in fs ==> g in Find(db0))
    ensures Extends(db, RepairDb(db, f, a))
    ensures AddsReleases(db, RepairDb(db, f, a), if f.Broken? && ParentOf(f.column) == Releases then f.missing else {})
    ensures AddsTracksOf(db, RepairDb(db, f, a), if f.NoTracklist? then {f.mbid} else {})
  {
    if f.Broken? {
      RepairBroken(db, f, a);
    } else {
      StillHeld(db0, db, fs, f, cfg);
      RepairTracklist(db, f, a);
    }
  }

  /** Only a release's own finding removes it. */
  lemma StillHeld(db0: Db, db: Db, fs: seq<Finding>, f: Finding, cfg: Config)
    requires RowsKept(db0, db, Gone(fs, cfg)) && f in Find(db0) && f !in fs && (forall g :: g in fs ==> g in Find(db0))
    requires f.NoTracklist?
    ensures Held(db, Releases, f.mbid)
  {
    hide Find;
    TracklessFound(db0, f);
    forall g | g in fs && Removes(g, cfg) ensures (Releases, [f.mbid]) !in Deletes(g) {
      if g.Broken? {
        BrokenFound(db0, g);
      } else {
        TracklessFound(db0, g);
      }
    }
  }

  /** A release that was missing at the start is none that a removal takes. */
  lemma MissingNotGone(db0: Db, fs: seq<Finding>, f: Finding, cfg: Config, v: Value)
    requires f in Find(db0) && f.Broken? && v in f.missing && forall g :: g in fs ==> g in Find(db0)
    ensures (ParentOf(f.column), [v]) !in Gone(fs, cfg)
  {
    hide Find;
    BrokenFound(db0, f);
    var y := (ParentOf(f.column), [v]);
    forall g | g in fs && Removes(g, cfg) ensures y !in Deletes(g) {
      if g.Broken? {
        BrokenFound(db0, g);
      } else {
        TracklessFound(db0, g);
      }
    }
  }

  lemma RepairSound(db0: Db, db: Db, db': Db, fs: seq<Finding>, f: Finding, a: Answer, cfg: Config)
    requires Sound(db0, db, fs, cfg) && f in Find(db0) && f !in fs && (forall g :: g in fs ==> g in Find(db0))
    requires !Removes(f, cfg)
    requires Extends(RepairDb(db, f, a), db')
    requires Leaves(RepairDb(db, f, a), db', Releases) && Leaves(RepairDb(db, f, a), db', ReleaseRecordings)
    ensures Sound(db0, db', fs + [f], cfg)
  {
    var db1 := RepairDb(db, f, a);
    RepairAdds(db0, db, fs, f, a, cfg);
    ExtendsTwice(db, db1, db');
    var releases := if f.Broken? && ParentOf(f.column) == Releases then f.missing else {};
    forall v | v in releases ensures (Releases, [v]) !in Gone(fs, cfg) {
      MissingNotGone(db0, fs, f, cfg, v);
    }
    ExtendSound(db0, db, db', fs, f, cfg, releases);
  }

  lemma CopiedTables(t: Table, row: Row, a: Answer, fmap: map<Value, int>, pmap: map<Value, int>)
    requires CopyOf(t, row, a, fmap, pmap)
    ensures t != Releases && t != ReleaseRecordings && t != Recordings && t != Artists
  {
  }

  /** Audio that came in came in with the node's file that has it. */
  lemma NewAudioIsCopied(db: Db, db': Db, a: Answer, fmap: map<Value, int>, pmap: map<Value, int>, d: Row)
    requires DistinctIds(Rows(a, Files), "audio_md5") && d in Rows(a, Files) && OnlyCopies(db, db', a, fmap, pmap)
    requires Extends(db, db') && HoldsAudio(db', Get(d, "audio_md5")) && !HoldsAudio(db, Get(d, "audio_md5"))
    ensures Get(d, "file_id") in fmap
  {
    var x :| x in db' && x.0 == Files && Get(db'[x], "audio_md5") == Get(d, "audio_md5");
    var e :| e in Rows(a, Files) && Get(e, "file_id") in fmap && Get(e, "audio_md5") == Get(d, "audio_md5");
    SameRow(Rows(a, Files), "audio_md5", d, e);
  }

  /** Copied files get ids no row of the hub had. */
  lemma FilesGetNewIds(db: Db, db': Db, a: Answer, node: string, keys: set<Value>, cfg: Config)
    returns (fmap: map<Value, int>, pmap: map<Value, int>)
    requires ProperAnswer(a)
    requires AddFiles(db, a, node, keys, cfg) == Some(db')
    ensures FilesCopied(db, db', a, Rows(a, Files), WantedAudio(a, keys), NextId(db, Files), NextId(db, Passages),
                        fmap, pmap)
    ensures forall d :: d in Rows(a, Files) ==>
      (Get(d, "file_id") in fmap
       <==> Get(d, "audio_md5") in WantedAudio(a, keys) && !HoldsAudio(db, Get(d, "audio_md5")))
    ensures forall v :: v in fmap ==> !Held(db, Files, Int(fmap[v]))
    ensures forall v :: v in pmap ==> !Held(db, Passages, Int(pmap[v]))
  {
    NextIdFresh(db, Files);
    NextIdFresh(db, Passages);
    fmap, pmap := CopyFilesFacts(db, db', a, Rows(a, Files), WantedAudio(a, keys), NextId(db, Files),
                                 NextId(db, Passages), path => cfg.place(node, path), cfg.stamp);
    forall d |
      d in Rows(a, Files) && Get(d, "audio_md5") in WantedAudio(a, keys) && !HoldsAudio(db, Get(d, "audio_md5"))
      ensures Get(d, "file_id") in fmap
    {
      NewAudioIsCopied(db, db', a, fmap, pmap, d);
    }
  }

  /** Copied files touch neither releases nor tracklists. */
  lemma AddFilesFacts(db: Db, db': Db, a: Answer, node: string, keys: set<Value>, cfg: Config)
    requires ProperAnswer(a)
    requires AddFiles(db, a, node, keys, cfg) == Some(db')
    ensures Extends(db, db') && Leaves(db, db', Releases) && Leaves(db, db', ReleaseRecordings)
  {
    var fmap, pmap := FilesGetNewIds(db, db', a, node, keys, cfg);
    forall x | x in db' && x !in db ensures x.0 != Releases && x.0 != ReleaseRecordings {
      CopiedTables(x.0, db'[x], a, fmap, pmap);
    }
  }

  lemma StepSound(db0: Db, db: Db, fs: seq<Finding>, f: Finding, cfg: Config)
    requires Sound(db0, db, fs, cfg) && f in Find(db0) && f !in fs && (forall g :: g in fs ==> g in Find(db0))
    requires ProperAnswers(cfg)
    ensures Sound(db0, StepDb(db, f, cfg), fs + [f], cfg)
  {
    hide RepairDb;
    hide AddFiles;
    hide Sound;
    hide Deletes;
    var db' := StepDb(db, f, cfg);
    if Removes(f, cfg) {
      RemoveSound(db0, db, fs, f, cfg);
    } else if db' == db {
      ExtendSound(db0, db, db, fs, f, cfg, {});
    } else {
      var e := EffectOf(f, cfg);
      var a := cfg.answers[e.node];
      var db1 := RepairDb(db, f, a);
      if e.withFiles {
        AddFilesFacts(db1, db', a, e.node, Offered(f, a), cfg);
      }
      RepairSound(db0, db, db', fs, f, a, cfg);
    }
  }

  lemma {:induction false} CorrectSound(db0: Db, fs: seq<Finding>, cfg: Config)
    requires WellKeyed(db0) && FindingsOf(fs, db0) && ProperAnswers(cfg)
    ensures Sound(db0, CorrectDb(db0, fs, cfg), fs, cfg)
  {
    if fs != [] {
      var init, f := fs[..|fs| - 1], fs[|fs| - 1];
      assert fs == init + [f];
      CorrectSound(db0, init, cfg);
      StepSound(db0, CorrectDb(db0, init, cfg), init, f, cfg);
    }
  }

  // -------------------------------------------------------------- what a run does

  /** Rows that name nothing after a run named nothing before it, and were not removed. */
  lemma NothingNewDangles(db: Db, fs: seq<Finding>, cfg: Config)
    requires WellKeyed(db) && FindingsOf(fs, db) && ProperAnswers(cfg)
    ensures forall x, c :: Dangles(CorrectDb(db, fs, cfg), x, c) ==> Dangles(db, x, c)
  {
    CorrectSound(db, fs, cfg);
  }

  /** Why a run may take a row away. */
  ghost predicate MayGo(db: Db, x: (Table, Key))
  {
    || (IsLinkTable(x.0) && exists c :: c in Columns(x.0) && Dangles(db, x, c))
    || ((x.0 == Releases || x.0 == CoverArt) && |x.1| == 1 && Held(db, Releases, x.1[0])
        && !NamesRelease(db, ReleaseRecordings, x.1[0]) && !NamesRelease(db, FileReleases, x.1[0]))
  }

  lemma GoneMayGo(db: Db, fs: seq<Finding>, cfg: Config, x: (Table, Key))
    requires FindingsOf(fs, db) && x in Gone(fs, cfg)
    ensures MayGo(db, x)
  {
    hide Find;
    var f :| f in fs && Removes(f, cfg) && x in Deletes(f);
    if f.Broken? {
      BrokenFound(db, f);
      assert Dangles(db, x, f.column);
    } else {
      TracklessFound(db, f);
      assert x.1 == [f.mbid];
    }
  }

  /**
   A run takes away only links that named nothing, and releases with no tracklist and no file taken from
   them, with their covers; every other row stands unchanged.
   */
  lemma OnlyWhatMayGo(db: Db, fs: seq<Finding>, cfg: Config)
    requires WellKeyed(db) && FindingsOf(fs, db) && ProperAnswers(cfg)
    ensures var db' := CorrectDb(db, fs, cfg);
      forall x :: x in db && !MayGo(db, x) ==> x in db' && db'[x] == db[x]
  {
    CorrectSound(db, fs, cfg);
    forall x | x in db && !MayGo(db, x) ensures x !in Gone(fs, cfg) {
      if x in Gone(fs, cfg) {
        GoneMayGo(db, fs, cfg, x);
      }
    }
  }

  /** What one finding leaves in place, and no removal takes, is there at the end. */
  lemma {:induction false} StaysToTheEnd(db: Db, fs: seq<Finding>, cfg: Config, n: nat, x: (Table, Key))
    requires WellKeyed(db) && FindingsOf(fs, db) && ProperAnswers(cfg) && n <= |fs|
    requires x in CorrectDb(db, fs[..n], cfg) && x !in Gone(fs, cfg)
    ensures x in CorrectDb(db, fs, cfg) && CorrectDb(db, fs, cfg)[x] == CorrectDb(db, fs[..n], cfg)[x]
    decreases |fs|
  {
    hide Sound;
    hide StepDb;
    hide Find;
    hide Gone;
    hide WellKeyed;
    if n == |fs| {
      assert fs[..n] == fs;
    } else {
      var init, f := fs[..|fs| - 1], fs[|fs| - 1];
      assert fs == init + [f] && init[..n] == fs[..n];
      GoneLonger(init, f, cfg);
      StaysToTheEnd(db, init, cfg, n, x);
      CorrectSound(db, init, cfg);
      StepKeeps(db, CorrectDb(db, init, cfg), init, f, cfg, x);
    }
  }

  lemma StepKeeps(db0: Db, db: Db, fs: seq<Finding>, f: Finding, cfg: Config, x: (Table, Key))
    requires Sound(db0, db, fs, cfg) && f in Find(db0) && f !in fs && (forall g :: g in fs ==> g in Find(db0))
    requires ProperAnswers(cfg) && x in db && (Removes(f, cfg) ==> x !in Deletes(f))
    ensures x in StepDb(db, f, cfg) && StepDb(db, f, cfg)[x] == db[x]
  {
    hide Find;
    hide EffectOf;
    hide Offered;
    hide Repaired;
    hide RepairDb;
    hide AddFiles;
    hide Sound;
    hide Deletes;
    var db' := StepDb(db, f, cfg);
    if !Removes(f, cfg) && db' != db {
      var e := EffectOf(f, cfg);
      var a := cfg.answers[e.node];
      RepairAdds(db0, db, fs, f, a, cfg);
      if e.withFiles {
        AddFilesFacts(RepairDb(db, f, a), db', a, e.node, Offered(f, a), cfg);
      }
    }
  }

  /** The finding's repair goes through. */
  ghost predicate Repaired(db: Db, f: Finding, cfg: Config)
  {
    var e := EffectOf(f, cfg);
    && f !in cfg.failing && e.RepairRows?
    && (e.withFiles ==>
          var a := cfg.answers[e.node];
          AddFiles(RepairDb(db, f, a), a, e.node, Offered(f, a), cfg).Some?)
  }

  /** The node a finding is repaired from holds every key it misses. */
  ghost predicate FullyOffered(f: Finding, cfg: Config)
  {
    var e := EffectOf(f, cfg);
    e.RepairRows? && (f.Broken? ==> Offered(f, cfg.answers[e.node]) == f.missing)
  }

  /** A finding of the catalogue about the same row as f. */
  ghost predicate StillFound(db: Db, f: Finding)
  {
    match f
    case Broken(t, column, owner, _, _) => RowsOf(db, t, column, owner) != {}
    case NoTracklist(mbid, _) => Held(db, Releases, mbid) && !NamesRelease(db, ReleaseRecordings, mbid)
  }

  lemma RemovedIsGone(db: Db, fs: seq<Finding>, cfg: Config, f: Finding)
    requires WellKeyed(db) && FindingsOf(fs, db) && ProperAnswers(cfg)
    requires f in fs && Removes(f, cfg)
    ensures !StillFound(CorrectDb(db, fs, cfg), f)
  {
    CorrectSound(db, fs, cfg);
    var db' := CorrectDb(db, fs, cfg);
    assert Deletes(f) <= Gone(fs, cfg);
    if f.Broken? {
      BrokenFound(db, f);
      forall x | x in db' && x.0 == f.table && Dangles(db', x, f.column)
        ensures OwnerOf(f.table, db'[x], f.column) != f.owner
      {
        assert x !in Gone(fs, cfg) && Dangles(db, x, f.column) && db'[x] == db[x];
      }
    } else {
      assert (Releases, [f.mbid]) in Deletes(f);
    }
  }

  /** What a repair adds for a finding is held once it went through. */
  lemma RepairHolds(db0: Db, db: Db, fs: seq<Finding>, f: Finding, cfg: Config)
    requires Sound(db0, db, fs, cfg) && f in Find(db0) && f !in fs && (forall g :: g in fs ==> g in Find(db0))
    requires ProperAnswers(cfg) && Repaired(db, f, cfg) && FullyOffered(f, cfg)
    ensures var db' := StepDb(db, f, cfg);
      && (f.Broken? ==> forall v :: v in f.missing ==> Held(db', ParentOf(f.column), v))
      && (f.NoTracklist? ==> NamesRelease(db', ReleaseRecordings, f.mbid))
  {
    hide RepairDb;
    hide AddFiles;
    hide Offered;
    hide Find;
    hide EffectOf;
    var e := EffectOf(f, cfg);
    var a := cfg.answers[e.node];
    var db1 := RepairDb(db, f, a);
    if f.Broken? {
      RepairBroken(db, f, a);
      if e.withFiles {
        AddFilesFacts(db1, StepDb(db, f, cfg), a, e.node, Offered(f, a), cfg);
      }
    } else {
      StillHeld(db0, db, fs, f, cfg);
      RepairTracklist(db, f, a);
    }
  }

  /**
   A finding removed, or repaired from a node that offered all it misses, is none of the catalogue's
   after the run.
   */
  lemma RepairedIsGone(db: Db, fs: seq<Finding>, cfg: Config, n: nat)
    requires WellKeyed(db) && FindingsOf(fs, db) && ProperAnswers(cfg) && n < |fs|
    requires Repaired(CorrectDb(db, fs[..n], cfg), fs[n], cfg) && FullyOffered(fs[n], cfg)
    ensures !StillFound(CorrectDb(db, fs, cfg), fs[n])
  {
    hide Find;
    hide StillFound;
    hide StepDb;
    hide Repaired;
    hide FullyOffered;
    hide NamesRelease;
    hide Sound;
    hide WellKeyed;
    var f := fs[n];
    RepairHeldAtTurn(db, fs, cfg, n);
    if f.Broken? {
      BrokenIsGone(db, fs, cfg, n + 1, f);
    } else {
      TracklistStays(db, fs, cfg, n + 1, f);
      ListedNotFound(CorrectDb(db, fs, cfg), f);
    }
  }

  lemma RepairHeldAtTurn(db: Db, fs: seq<Finding>, cfg: Config, n: nat)
    requires WellKeyed(db) && FindingsOf(fs, db) && ProperAnswers(cfg) && n < |fs|
    requires Repaired(CorrectDb(db, fs[..n], cfg), fs[n], cfg) && FullyOffered(fs[n], cfg)
    ensures var f, after := fs[n], CorrectDb(db, fs[..n + 1], cfg);
      && WellKeyed(after)
      && (f.Broken? ==> forall v :: v in f.missing ==> Held(after, ParentOf(f.column), v))
      && (f.NoTracklist? ==> NamesRelease(after, ReleaseRecordings, f.mbid))
  {
    hide Find;
    hide StepDb;
    hide Repaired;
    hide FullyOffered;
    hide NamesRelease;
    var f := fs[n];
    assert fs[..n + 1] == fs[..n] + [f] && (fs[..n] + [f])[..n] == fs[..n];
    CorrectSound(db, fs[..n], cfg);
    CorrectSound(db, fs[..n + 1], cfg);
    RepairHolds(db, CorrectDb(db, fs[..n], cfg), fs[..n], f, cfg);
  }

  lemma ListedNotFound(db: Db, f: Finding)
    requires f.NoTracklist? && NamesRelease(db, ReleaseRecordings, f.mbid)
    ensures !StillFound(db, f)
  {
  }

  lemma BrokenIsGone(db: Db, fs: seq<Finding>, cfg: Config, n: nat, f: Finding)
    requires WellKeyed(db) && FindingsOf(fs, db) && ProperAnswers(cfg) && n <= |fs|
    requires f in fs && f.Broken?
    requires forall v :: v in f.missing ==> Held(CorrectDb(db, fs[..n], cfg), ParentOf(f.column), v)
    ensures !StillFound(CorrectDb(db, fs, cfg), f)
  {
    hide Find;
    hide StillFound;
    forall v | v in f.missing ensures Held(CorrectDb(db, fs, cfg), ParentOf(f.column), v) {
      MissingNotGone(db, fs, f, cfg, v);
      StaysToTheEnd(db, fs, cfg, n, (ParentOf(f.column), [v]));
    }
    HeldIsGone(db, fs, cfg, f);
  }

  lemma TracklistStays(db: Db, fs: seq<Finding>, cfg: Config, n: nat, f: Finding)
    requires WellKeyed(db) && FindingsOf(fs, db) && ProperAnswers(cfg) && n <= |fs|
    requires f in fs && f.NoTracklist? && WellKeyed(CorrectDb(db, fs[..n], cfg))
    requires NamesRelease(CorrectDb(db, fs[..n], cfg), ReleaseRecordings, f.mbid)
    ensures NamesRelease(CorrectDb(db, fs, cfg), ReleaseRecordings, f.mbid)
  {
    hide Find;
    hide CorrectDb;
    var after := CorrectDb(db, fs[..n], cfg);
    var x :| x in after && x.0 == ReleaseRecordings && Get(after[x], "release_mbid") == f.mbid;
    TrackStays(db, fs, cfg, f, x, after[x]);
    StaysToTheEnd(db, fs, cfg, n, x);
  }

  /** Once every missing key is held, no row of the finding dangles. */
  lemma HeldIsGone(db: Db, fs: seq<Finding>, cfg: Config, f: Finding)
    requires WellKeyed(db) && FindingsOf(fs, db) && ProperAnswers(cfg) && f in fs && f.Broken?
    requires forall v :: v in f.missing ==> Held(CorrectDb(db, fs, cfg), ParentOf(f.column), v)
    ensures !StillFound(CorrectDb(db, fs, cfg), f)
  {
    hide Find;
    CorrectSound(db, fs, cfg);
    BrokenFound(db, f);
    var db' := CorrectDb(db, fs, cfg);
    forall x | x in db' && x.0 == f.table && Dangles(db', x, f.column)
      ensures OwnerOf(f.table, db'[x], f.column) != f.owner
    {
      assert x !in Gone(fs, cfg) && Dangles(db, x, f.column) && db'[x] == db[x];
    }
  }

  /** A track that names a release the start had no tracklist for is a row no removal takes. */
  lemma TrackStays(db: Db, fs: seq<Finding>, cfg: Config, f: Finding, x: (Table, Key), row: Row)
    requires WellKeyed(db) && FindingsOf(fs, db) && f in fs && f.NoTracklist?
    requires x == (ReleaseRecordings, KeyOf(ReleaseRecordings, row)) && Get(row, "release_mbid") == f.mbid
    ensures x !in Gone(fs, cfg)
  {
    hide Find;
    TracklessFound(db, f);
    if x in Gone(fs, cfg) {
      GoneTables(db, fs, cfg, x);
      TrackNamesRelease(db, row, f.mbid);
    }
  }

  // ------------------------------------------------------- releases taken up meanwhile

  /** What a repair adds is neither a file nor the release of one. */
  lemma RepairLeavesFiles(db: Db, f: Finding, a: Answer, t: Table)
    requires t == Files || t == FileReleases
    ensures Leaves(db, RepairDb(db, f, a), t)
    ensures forall x :: x in db ==> x in RepairDb(db, f, a) && RepairDb(db, f, a)[x] == db[x]
  {
    var keys := Offered(f, a);
    match f
    case Broken(_, column, _, _, _) =>
      if ParentOf(column) == Recordings {
        RecordingsLeaveFiles(db, a, keys, t);
      } else if ParentOf(column) == t {
        NothingIn(Rows(a, t), "mbid");
      } else {
        InsertsElsewhere(db, ParentOf(column), Where(Rows(a, ParentOf(column)), In("mbid", keys)), t);
      }
    case NoTracklist(_, _) =>
      var tracks := OfferedTracks(a, keys);
      var db1 := AddRecordings(db, a, Values(tracks, "mbid"));
      RecordingsLeaveFiles(db, a, Values(tracks, "mbid"), t);
      InsertsElsewhere(db1, ReleaseRecordings, Where(tracks, HeldIn(db1, Recordings, "mbid")), t);
  }

  lemma {:induction false} InsertsElsewhere(db: Db, t: Table, rows: seq<Row>, u: Table)
    requires u != t
    ensures Leaves(db, InsertAll(db, t, rows), u) && Keeps(db, InsertAll(db, t, rows))
  {
    if rows != [] {
      InsertsElsewhere(db, t, rows[..|rows| - 1], u);
    }
  }

  ghost predicate Keeps(db: Db, db': Db)
  {
    forall x :: x in db ==> x in db' && db'[x] == db[x]
  }

  lemma LeavesTwice(db: Db, db1: Db, db2: Db, t: Table)
    requires Leaves(db, db1, t) && Keeps(db, db1) && Leaves(db1, db2, t) && Keeps(db1, db2)
    ensures Leaves(db, db2, t) && Keeps(db, db2)
  {
  }

  lemma RecordingsLeaveFiles(db: Db, a: Answer, keys: set<Value>, t: Table)
    requires t == Files || t == FileReleases
    ensures Leaves(db, AddRecordings(db, a, keys), t) && Keeps(db, AddRecordings(db, a, keys))
  {
    hide InsertAll;
    hide Where;
    hide In;
    hide Values;
    hide HeldIn;
    hide RecordingFlavor;
    var credits := Where(Rows(a, RecordingArtists), In("mbid", keys));
    var db1, db2, db3 := WithArtists(db, a, keys), WithRecordings(db, a, keys), WithCredits(db, a, keys);
    InsertsElsewhere(db, Artists, Where(Rows(a, Artists), In("mbid", Values(credits, "artist_mbid"))), t);
    InsertsElsewhere(db1, Recordings, Where(Rows(a, Recordings), In("mbid", keys)), t);
    InsertsElsewhere(db2, RecordingArtists, Where(credits, HeldIn(db2, Artists, "artist_mbid")), t);
    InsertsElsewhere(db3, Flavor, Where(Rows(a, Flavor), RecordingFlavor(keys)), t);
    hide Leaves;
    hide Keeps;
    LeavesTwice(db, db1, db2, t);
    LeavesTwice(db, db2, db3, t);
    LeavesTwice(db, db3, AddRecordings(db, a, keys), t);
  }

  /** The finding's files come with a row that says one of them was taken from the release, for audio that had none. */
  ghost predicate BringsFileOf(db: Db, f: Finding, cfg: Config, release: Value)
  {
    && Repaired(db, f, cfg) && EffectOf(f, cfg).withFiles
    && ListsFileOf(db, cfg.answers[EffectOf(f, cfg).node], WantedAudio(cfg.answers[EffectOf(f, cfg).node],
                   Offered(f, cfg.answers[EffectOf(f, cfg).node])), release)
  }

  /**
   A wanted file the hub does not hold, and the node's row that says it is of the release, where the
   hub has no such row.
   */
  ghost predicate ListsFileOf(db: Db, a: Answer, want: set<Value>, release: Value)
  {
    exists d, r :: d in Rows(a, Files) && r in Rows(a, FileReleases) && Get(r, "audio_md5") == Get(d, "audio_md5")
      && Get(d, "audio_md5") in want && !HoldsAudio(db, Get(d, "audio_md5"))
      && (FileReleases, [Get(d, "audio_md5")]) !in db && Get(r, "release_mbid") == release
  }

  lemma AudioUnmoved(db: Db, db': Db, md5: Value)
    requires Keeps(db, db') && Leaves(db, db', Files)
    ensures HoldsAudio(db, md5) == HoldsAudio(db', md5)
  {
  }

  lemma ListsAlike(db: Db, db': Db, a: Answer, want: set<Value>, release: Value)
    requires Keeps(db, db') && Leaves(db, db', Files) && Leaves(db, db', FileReleases)
    ensures ListsFileOf(db, a, want, release) == ListsFileOf(db', a, want, release)
  {
    forall md5 ensures HoldsAudio(db, md5) == HoldsAudio(db', md5) {
      AudioUnmoved(db, db', md5);
    }
  }

  lemma NamedAlike(db: Db, db': Db, release: Value)
    requires Keeps(db, db') && Leaves(db, db', FileReleases)
    ensures NamesRelease(db, FileReleases, release) == NamesRelease(db', FileReleases, release)
  {
    if NamesRelease(db', FileReleases, release) {
      var x :| x in db' && x.0 == FileReleases && Get(db'[x], "release_mbid") == release;
      assert x in db;
    }
    if NamesRelease(db, FileReleases, release) {
      var x :| x in db && x.0 == FileReleases && Get(db[x], "release_mbid") == release;
      assert x in db';
    }
  }

  /** Copied files name a release exactly when one of them brings the row that does. */
  lemma CopiedFilesName(db: Db, db': Db, a: Answer, node: string, keys: set<Value>, cfg: Config, release: Value)
    requires ProperAnswer(a) && AddFiles(db, a, node, keys, cfg) == Some(db') && WellKeyed(db)
    ensures NamesRelease(db', FileReleases, release)
       <==> NamesRelease(db, FileReleases, release) || ListsFileOf(db, a, WantedAudio(a, keys), release)
  {
    hide AddFiles;
    hide WantedAudio;
    hide FilesWhole;
    hide IdsGiven;
    hide AudioHeld;
    var fmap, pmap := FilesGetNewIds(db, db', a, node, keys, cfg);
    if NamesRelease(db', FileReleases, release) && !NamesRelease(db, FileReleases, release) {
      var x :| x in db' && x.0 == FileReleases && Get(db'[x], "release_mbid") == release;
      NewNamesListed(db, db', a, WantedAudio(a, keys), fmap, pmap, x, release);
    }
    if NamesRelease(db, FileReleases, release) {
      var x :| x in db && x.0 == FileReleases && Get(db[x], "release_mbid") == release;
      assert x in db' && db'[x] == db[x];
    } else if ListsFileOf(db, a, WantedAudio(a, keys), release) {
      ListedIsNamed(db, db', a, WantedAudio(a, keys), fmap, pmap, release);
    }
  }

  lemma ReleaseKey(r: Row)
    ensures KeyOf(FileReleases, r) == [Get(r, "audio_md5")]
  {
  }

  lemma NewNamesListed(db: Db, db': Db, a: Answer, want: set<Value>, fmap: map<Value, int>, pmap: map<Value, int>,
                       x: (Table, Key), release: Value)
    requires Extends(db, db') && OnlyCopies(db, db', a, fmap, pmap) && OnlyNewAudio(db, Rows(a, Files), want, fmap)
    requires x in db' && x.0 == FileReleases && Get(db'[x], "release_mbid") == release
    requires !NamesRelease(db, FileReleases, release)
    ensures ListsFileOf(db, a, want, release)
  {
    var r := db'[x];
    assert x !in db;
    assert CopyOf(FileReleases, r, a, fmap, pmap);
    var d :| d in Rows(a, Files) && Get(d, "file_id") in fmap && Get(d, "audio_md5") == Get(r, "audio_md5");
    ReleaseKey(r);
    assert x == (FileReleases, [Get(d, "audio_md5")]);
    assert r in Rows(a, FileReleases);
  }

  lemma ListedIsNamed(db: Db, db': Db, a: Answer, want: set<Value>, fmap: map<Value, int>, pmap: map<Value, int>,
                      release: Value)
    requires Extends(db, db') && OnlyCopies(db, db', a, fmap, pmap)
    requires FilesWhole(db, db', a, Rows(a, Files), fmap, pmap)
    requires forall d :: d in Rows(a, Files) ==>
      (Get(d, "file_id") in fmap <==> Get(d, "audio_md5") in want && !HoldsAudio(db, Get(d, "audio_md5")))
    requires DistinctIds(Rows(a, FileReleases), "audio_md5") && ListsFileOf(db, a, want, release)
    ensures NamesRelease(db', FileReleases, release)
  {
    hide FileWhole;
    hide CopyOf;
    hide Extends;
    var d, r :| d in Rows(a, Files) && r in Rows(a, FileReleases) && Get(r, "audio_md5") == Get(d, "audio_md5")
      && Get(d, "audio_md5") in want && !HoldsAudio(db, Get(d, "audio_md5"))
      && (FileReleases, [Get(d, "audio_md5")]) !in db && Get(r, "release_mbid") == release;
    RowBrought(db, db', a, fmap, pmap, d, fmap[Get(d, "file_id")], r);
  }

  lemma RowBrought(db: Db, db': Db, a: Answer, fmap: map<Value, int>, pmap: map<Value, int>, d: Row, fid: int, r: Row)
    requires Extends(db, db') && OnlyCopies(db, db', a, fmap, pmap) && FileWhole(db, db', a, d, fid, pmap)
    requires r in Rows(a, FileReleases) && Get(r, "audio_md5") == Get(d, "audio_md5")
    requires DistinctIds(Rows(a, FileReleases), "audio_md5") && (FileReleases, [Get(d, "audio_md5")]) !in db
    ensures NamesRelease(db', FileReleases, Get(r, "release_mbid"))
  {
    hide PassagesWhole;
    var x := (FileReleases, [Get(d, "audio_md5")]);
    assert x in db';
    assert CopyOf(FileReleases, db'[x], a, fmap, pmap);
    hide OnlyCopies;
    hide FileWhole;
    ReleaseKey(db'[x]);
    SameRow(Rows(a, FileReleases), "audio_md5", r, db'[x]);
  }

  /** A file row comes to name a release exactly at a step that brings one. */
  lemma StepNames(db0: Db, db: Db, f: Finding, cfg: Config, release: Value)
    requires f in Find(db0) && WellKeyed(db) && ProperAnswers(cfg)
    ensures NamesRelease(StepDb(db, f, cfg), FileReleases, release)
       <==> NamesRelease(db, FileReleases, release) || BringsFileOf(db, f, cfg, release)
  {
    hide Find;
    hide EffectOf;
    hide RepairDb;
    hide AddFiles;
    hide NamesRelease;
    hide ListsFileOf;
    hide ProperAnswers;
    hide WellKeyed;
    hide Deletes;
    if Removes(f, cfg) {
      RemovalNamesAlike(db0, db, f, release);
    } else if EffectOf(f, cfg).RepairRows? && f !in cfg.failing {
      RepairNames(db, f, cfg, release);
    }
  }

  /** A removal takes no file's release. */
  lemma RemovalNamesAlike(db0: Db, db: Db, f: Finding, release: Value)
    requires f in Find(db0) && Removable(f)
    ensures NamesRelease(db - Deletes(f), FileReleases, release) <==> NamesRelease(db, FileReleases, release)
  {
    hide Find;
    hide NamesRelease;
    if f.Broken? {
      BrokenFound(db0, f);
    }
    NamedAlike(db - Deletes(f), db, release);
  }

  lemma RepairNames(db: Db, f: Finding, cfg: Config, release: Value)
    requires WellKeyed(db) && ProperAnswers(cfg) && EffectOf(f, cfg).RepairRows? && f !in cfg.failing
    ensures NamesRelease(StepDb(db, f, cfg), FileReleases, release)
       <==> NamesRelease(db, FileReleases, release) || BringsFileOf(db, f, cfg, release)
  {
    hide AddFiles;
    hide RepairDb;
    hide ListsFileOf;
    hide EffectOf;
    hide Offered;
    hide WantedAudio;
    hide NamesRelease;
    hide WellKeyed;
    var e := EffectOf(f, cfg);
    var a := cfg.answers[e.node];
    var db1 := RepairDb(db, f, a);
    RepairNamesNone(db, f, a, release);
    if e.withFiles && AddFiles(db1, a, e.node, Offered(f, a), cfg).Some? {
      RepairThenFiles(db, StepDb(db, f, cfg), f, a, e.node, cfg, release);
    }
  }

  lemma RepairNamesNone(db: Db, f: Finding, a: Answer, release: Value)
    ensures NamesRelease(RepairDb(db, f, a), FileReleases, release) <==> NamesRelease(db, FileReleases, release)
  {
    hide RepairDb;
    hide NamesRelease;
    RepairLeavesFiles(db, f, a, FileReleases);
    NamedAlike(db, RepairDb(db, f, a), release);
  }

  lemma RepairThenFiles(db: Db, db': Db, f: Finding, a: Answer, node: string, cfg: Config, release: Value)
    requires WellKeyed(db) && ProperAnswer(a) && f.Broken? && ParentOf(f.column) == Recordings
    requires AddFiles(RepairDb(db, f, a), a, node, Offered(f, a), cfg) == Some(db')
    ensures NamesRelease(db', FileReleases, release)
       <==> NamesRelease(db, FileReleases, release) || ListsFileOf(db, a, WantedAudio(a, Offered(f, a)), release)
  {
    hide AddFiles;
    hide RepairDb;
    hide ListsFileOf;
    hide Offered;
    hide WantedAudio;
    hide NamesRelease;
    var db1 := RepairDb(db, f, a);
    RepairNamesNone(db, f, a, release);
    RepairLeavesFiles(db, f, a, Files);
    RepairLeavesFiles(db, f, a, FileReleases);
    ListsAlike(db, db1, a, WantedAudio(a, Offered(f, a)), release);
    RepairBroken(db, f, a);
    ExtendsWellKeyed(db, db1);
    CopiedFilesName(db1, db', a, node, Offered(f, a), cfg, release);
  }

  /** Some finding of the run, when its turn comes, brings a file of the release. */
  ghost predicate Brought(db: Db, fs: seq<Finding>, cfg: Config, release: Value)
  {
    exists n {:trigger fs[n]} :: 0 <= n < |fs| && BringsFileOf(CorrectDb(db, fs[..n], cfg), fs[n], cfg, release)
  }

  lemma BroughtLonger(db: Db, fs: seq<Finding>, f: Finding, cfg: Config, release: Value)
    ensures Brought(db, fs + [f], cfg, release)
       <==> Brought(db, fs, cfg, release) || BringsFileOf(CorrectDb(db, fs, cfg), f, cfg, release)
  {
    hide BringsFileOf;
    hide CorrectDb;
    var all := fs + [f];
    assert all[..|fs|] == fs && all[|fs|] == f;
    forall n | 0 <= n < |fs| ensures all[..n] == fs[..n] && all[n] == fs[n] {
    }
    if Brought(db, fs, cfg, release) {
      var n :| 0 <= n < |fs| && BringsFileOf(CorrectDb(db, fs[..n], cfg), fs[n], cfg, release);
      assert BringsFileOf(CorrectDb(db, all[..n], cfg), all[n], cfg, release);
    }
  }

  lemma {:induction false} NamedIffBrought(db: Db, fs: seq<Finding>, cfg: Config, release: Value)
    requires WellKeyed(db) && FindingsOf(fs, db) && ProperAnswers(cfg)
    ensures NamesRelease(CorrectDb(db, fs, cfg), FileReleases, release)
       <==> NamesRelease(db, FileReleases, release) || Brought(db, fs, cfg, release)
  {
    hide BringsFileOf;
    hide StepDb;
    hide Find;
    if fs != [] {
      var init, f := fs[..|fs| - 1], fs[|fs| - 1];
      assert fs == init + [f];
      NamedIffBrought(db, init, cfg, release);
      CorrectSound(db, init, cfg);
      StepNames(db, CorrectDb(db, init, cfg), f, cfg, release);
      BroughtLonger(db, init, f, cfg, release);
    }
  }

  /**
   A release removed for want of a tracklist, no file being taken from it when the run began, is gone at the
   end; and a file row names it all the same exactly when a finding of the same run brought one.
   */
  lemma RemovedReleaseTakenIff(db: Db, fs: seq<Finding>, cfg: Config, f: Finding)
    requires WellKeyed(db) && FindingsOf(fs, db) && ProperAnswers(cfg)
    requires f in fs && f.NoTracklist? && Removes(f, cfg)
    ensures var db' := CorrectDb(db, fs, cfg);
      && !Held(db', Releases, f.mbid)
      && (NamesRelease(db', FileReleases, f.mbid) <==> Brought(db, fs, cfg, f.mbid))
  {
    hide Find;
    hide Brought;
    CorrectSound(db, fs, cfg);
    TracklessFound(db, f);
    NamedIffBrought(db, fs, cfg, f.mbid);
    assert (Releases, [f.mbid]) in Deletes(f);
    assert (Releases, [f.mbid]) in Gone(fs, cfg);
  }

  /** Where every path has a place, the files are copied. */
  lemma {:induction false} AllPlaced(db: Db, a: Answer, files: seq<Row>, want: set<Value>, fid: int, pid0: int,
                                     place: Value -> Option<Value>, stamp: Value)
    requires forall v :: place(v).Some?
    ensures CopyFiles(db, a, files, want, fid, pid0, place, stamp).Some?
    decreases |files|
  {
    hide CopyFile;
    hide HoldsAudio;
    if files != [] {
      var d := files[0];
      if Get(d, "audio_md5") !in want || HoldsAudio(db, Get(d, "audio_md5")) {
        AllPlaced(db, a, files[1..], want, fid, pid0, place, stamp);
      } else {
        AllPlaced(CopyFile(db, a, d, fid, pid0, place(Get(d, "path")).value, stamp), a, files[1..], want,
                  fid + 1, pid0 + |PassagesOf(a, Get(d, "file_id"))|, place, stamp);
      }
    }
  }

  // A catalogue with an empty release and lyrics of a recording it lacks, and a node that has the recording,
  // a file of it, and the release that file is from.

  ghost function EmptyReleaseDb(): Db
  {
    map[(Releases, [Text("rel")]) := map["mbid" := Text("rel")], (Lyrics, [Text("rec")]) := map["mbid" := Text("rec")]]
  }

  ghost function LyricsFinding(): Finding
  {
    Broken(Lyrics, "mbid", map[], {Text("rec")}, {(Lyrics, [Text("rec")])})
  }

  ghost function ReleaseFinding(): Finding
  {
    NoTracklist(Text("rel"), false)
  }

  ghost function NodeAnswer(): Answer
  {
    Answer(map[Recordings := [map["mbid" := Text("rec")]],
               PassageRecordings := [map["passage_id" := Int(1), "mbid" := Text("rec")]],
               Passages := [map["passage_id" := Int(1), "file_id" := Int(1)]],
               Files := [map["file_id" := Int(1), "audio_md5" := Text("md5")]],
               FileReleases := [map["audio_md5" := Text("md5"), "release_mbid" := Text("rel")]]], true, true, true)
  }

  /** The lyrics' recording is repaired with its files, and the release removed. */
  ghost function RepairAndRemove(): Config
  {
    Config(map[LyricsFinding() := RepairFiles("node"), ReleaseFinding() := Remove({})], map["node" := NodeAnswer()],
           (n, v) => Some(v), Null, {})
  }

  lemma LyricsFound()
    ensures LyricsFinding() in Find(EmptyReleaseDb())
  {
    var db, x := EmptyReleaseDb(), (Lyrics, [Text("rec")]);
    assert x in db && "mbid" in Columns(x.0) && Dangles(db, x, "mbid");
    assert OwnerOf(Lyrics, db[x], "mbid") == map[];
    assert RowsOf(db, Lyrics, "mbid", map[]) == {x};
    assert BrokenAt(db, Lyrics, "mbid", map[]) == LyricsFinding();
  }

  lemma ReleaseFound()
    ensures ReleaseFinding() in Find(EmptyReleaseDb())
  {
    var db, x := EmptyReleaseDb(), (Releases, [Text("rel")]);
    assert x in db && x.0 == Releases && |x.1| == 1;
    assert !NamesRelease(db, ReleaseRecordings, x.1[0]) && !NamesRelease(db, FileReleases, x.1[0]);
  }

  lemma NodeOffers()
    ensures Offered(LyricsFinding(), NodeAnswer()) == {Text("rec")} && Offered(ReleaseFinding(), NodeAnswer()) == {}
    ensures Text("md5") in WantedAudio(NodeAnswer(), {Text("rec")}) && ProperAnswer(NodeAnswer())
  {
    var a := NodeAnswer();
    var rec, c, p, d := Rows(a, Recordings)[0], Rows(a, PassageRecordings)[0], Rows(a, Passages)[0], Rows(a, Files)[0];
    assert rec in Rows(a, Recordings) && Get(rec, "mbid") == Text("rec");
    assert c in Rows(a, PassageRecordings) && p in Rows(a, Passages) && d in Rows(a, Files);
    assert Get(c, "mbid") == Text("rec") && Get(p, "passage_id") == Get(c, "passage_id");
    assert Get(d, "file_id") == Get(p, "file_id") && Get(d, "audio_md5") == Text("md5");
    assert Rows(a, ReleaseRecordings) == [];
  }

  lemma BothDecided()
    ensures var cfg := RepairAndRemove();
      && EffectOf(LyricsFinding(), cfg) == RepairRows("node", true) && Removes(ReleaseFinding(), cfg)
  {
    LyricsRepaired();
    ReleaseRemoved();
  }

  lemma LyricsRepaired()
    ensures EffectOf(LyricsFinding(), RepairAndRemove()) == RepairRows("node", true)
  {
    hide Offered;
    NodeOffers();
    var f, cfg := LyricsFinding(), RepairAndRemove();
    assert cfg.decisions[f] == RepairFiles("node") && "node" in Offering(f, cfg);
  }

  lemma ReleaseRemoved()
    ensures Removes(ReleaseFinding(), RepairAndRemove())
  {
    hide Offered;
    NodeOffers();
    assert Offering(ReleaseFinding(), RepairAndRemove()) == {};
  }

  lemma LyricsListed(want: set<Value>)
    requires Text("md5") in want
    ensures ListsFileOf(EmptyReleaseDb(), NodeAnswer(), want, Text("rel"))
  {
    var db, a := EmptyReleaseDb(), NodeAnswer();
    var d, r := Rows(a, Files)[0], Rows(a, FileReleases)[0];
    assert d in Rows(a, Files) && r in Rows(a, FileReleases);
    assert Get(r, "audio_md5") == Get(d, "audio_md5") == Text("md5");
    NoAudioYet();
    hide HoldsAudio;
    assert Get(r, "release_mbid") == Text("rel");
  }

  lemma NoAudioYet()
    ensures !HoldsAudio(EmptyReleaseDb(), Text("md5")) && (FileReleases, [Text("md5")]) !in EmptyReleaseDb()
  {
  }

  lemma FilesPlaced(db: Db, f: Finding)
    ensures AddFiles(db, NodeAnswer(), "node", Offered(f, NodeAnswer()), RepairAndRemove()).Some?
  {
    hide CopyFiles;
    hide WantedAudio;
    hide Offered;
    hide NextId;
    var a, cfg := NodeAnswer(), RepairAndRemove();
    AllPlaced(db, a, Rows(a, Files), WantedAudio(a, Offered(f, a)), NextId(db, Files), NextId(db, Passages),
              path => cfg.place("node", path), cfg.stamp);
  }

  lemma LyricsBringFile()
    ensures BringsFileOf(EmptyReleaseDb(), LyricsFinding(), RepairAndRemove(), Text("rel"))
  {
    hide RepairDb;
    hide AddFiles;
    hide ListsFileOf;
    hide WantedAudio;
    hide Offered;
    hide EffectOf;
    NodeOffers();
    BothDecided();
    FilesPlaced(RepairDb(EmptyReleaseDb(), LyricsFinding(), NodeAnswer()), LyricsFinding());
    LyricsListed(WantedAudio(NodeAnswer(), {Text("rec")}));
  }

  lemma BothFound()
    ensures FindingsOf([LyricsFinding(), ReleaseFinding()], EmptyReleaseDb()) && WellKeyed(EmptyReleaseDb())
  {
    hide Find;
    LyricsFound();
    ReleaseFound();
  }

  lemma LyricsBrought(fs: seq<Finding>)
    requires fs == [LyricsFinding(), ReleaseFinding()]
    ensures Brought(EmptyReleaseDb(), fs, RepairAndRemove(), Text("rel"))
  {
    hide BringsFileOf;
    hide EmptyReleaseDb;
    hide RepairAndRemove;
    hide LyricsFinding;
    hide ReleaseFinding;
    LyricsBringFile();
    assert fs[..0] == [] && fs[0] == LyricsFinding();
    assert BringsFileOf(CorrectDb(EmptyReleaseDb(), fs[..0], RepairAndRemove()), fs[0], RepairAndRemove(), Text("rel"));
  }

  /** A run that removes a release and leaves a file that is taken from it. */
  lemma RemovedReleaseTaken()
    ensures var db, fs, cfg := EmptyReleaseDb(), [LyricsFinding(), ReleaseFinding()], RepairAndRemove();
      && FindingsOf(fs, db) && ProperAnswers(cfg) && WellKeyed(db)
      && NamesRelease(CorrectDb(db, fs, cfg), FileReleases, Text("rel"))
      && !Held(CorrectDb(db, fs, cfg), Releases, Text("rel"))
  {
    hide FindingsOf;
    hide WellKeyed;
    hide CorrectDb;
    hide NodeAnswer;
    hide EmptyReleaseDb;
    hide LyricsFinding;
    hide Removes;
    hide Brought;
    var fs := [LyricsFinding(), ReleaseFinding()];
    BothFound();
    NodeOffers();
    BothDecided();
    LyricsBrought(fs);
    assert ReleaseFinding() in fs;
    RemovedReleaseTakenIff(EmptyReleaseDb(), fs, RepairAndRemove(), ReleaseFinding());
  }

  // ------------------------------------------------------------- the catalogue

  lemma InsertAllStep(db: Db, t: Table, ds: seq<Row>, i: nat)
    requires i < |ds|
    ensures InsertAll(db, t, ds[..i + 1]) == Insert(InsertAll(db, t, ds[..i]), t, ds[i])
  {
    assert ds[..i + 1][..i] == ds[..i];
  }

  lemma NewIdsStep(ps: seq<Row>, pid0: int, i: nat)
    requires i < |ps|
    ensures NewIds(ps[..i + 1], pid0) == NewIds(ps[..i], pid0)[Get(ps[i], "passage_id") := pid0 + i]
  {
    assert ps[..i + 1][..i] == ps[..i];
  }

  lemma NoneYet(db: Db, copies: seq<Row>, ps: seq<Row>, pid0: int)
    ensures InsertAll(db, Passages, copies[..0]) == db && NewIds(ps[..0], pid0) == map[]
  {
  }

  /** The merge's copy of the hub's catalogue, changed in place. */
  class Hub {
    var rows: Db

    constructor (db: Db)
      ensures rows == db
    {
      rows := db;
    }

    method Put(t: Table, d: Row) returns (added: bool)
      modifies this
      ensures rows == Insert(old(rows), t, d)
      ensures added <==> (t, KeyOf(t, d)) !in old(rows)
    {
      added := (t, KeyOf(t, d)) !in rows;
      if added {
        rows := rows[(t, KeyOf(t, d)) := d];
      }
    }

    method PutAll(t: Table, ds: seq<Row>)
      modifies this
      ensures rows == InsertAll(old(rows), t, ds)
    {
      for i := 0 to |ds|
        invariant rows == InsertAll(old(rows), t, ds[..i])
      {
        InsertAllStep(old(rows), t, ds, i);
        var _ := Put(t, ds[i]);
      }
      assert ds[..|ds|] == ds;
    }

    /** The finding's rows, gone; a release takes its cover with it. */
    method Delete(f: Finding)
      modifies this
      ensures rows == old(rows) - Deletes(f)
    {
      var todo := Deletes(f);
      while todo != {}
        invariant todo <= Deletes(f) && rows == old(rows) - (Deletes(f) - todo)
        decreases |todo|
      {
        var x :| x in todo;
        rows := rows - {x};
        todo := todo - {x};
      }
    }

    method PutRecordings(a: Answer, keys: set<Value>)
      modifies this
      ensures rows == AddRecordings(old(rows), a, keys)
    {
      var credits := Where(Rows(a, RecordingArtists), In("mbid", keys));
      PutAll(Artists, Where(Rows(a, Artists), In("mbid", Values(credits, "artist_mbid"))));
      PutAll(Recordings, Where(Rows(a, Recordings), In("mbid", keys)));
      PutAll(RecordingArtists, Where(credits, HeldIn(rows, Artists, "artist_mbid")));
      PutAll(Flavor, Where(Rows(a, Flavor), RecordingFlavor(keys)));
    }

    /** Parents first; a child only where its parent is then held. */
    method RepairFrom(f: Finding, a: Answer)
      modifies this
      ensures rows == RepairDb(old(rows), f, a)
    {
      var keys := Offered(f, a);
      match f
      case Broken(_, column, _, _, _) =>
        if ParentOf(column) == Recordings {
          PutRecordings(a, keys);
        } else {
          PutAll(ParentOf(column), Where(Rows(a, ParentOf(column)), In("mbid", keys)));
        }
      case NoTracklist(_, _) =>
        var tracks := OfferedTracks(a, keys);
        PutRecordings(a, Values(tracks, "mbid"));
        PutAll(ReleaseRecordings, Where(tracks, HeldIn(rows, Recordings, "mbid")));
    }

    method PutPassages(a: Answer, nid: Value, fid: int, pid0: int) returns (ids: map<Value, int>, next: int)
      modifies this
      ensures rows == WithPassages(old(rows), a, nid, fid, pid0)
      ensures ids == NewIds(PassagesOf(a, nid), pid0) && next == pid0 + |PassagesOf(a, nid)|
    {
      hide NewIds;
      hide InsertAll;
      hide Insert;
      hide Get;
      hide KeyOf;
      hide PassageCopy;
      hide Where;
      var ps := PassagesOf(a, nid);
      ghost var copies := PassageCopies(ps, pid0, fid);
      NoneYet(old(rows), copies, ps, pid0);
      ids, next := map[], pid0;
      for i := 0 to |ps|
        invariant next == pid0 + i && ids == NewIds(ps[..i], pid0)
        invariant rows == InsertAll(old(rows), Passages, copies[..i])
      {
        InsertAllStep(old(rows), Passages, copies, i);
        NewIdsStep(ps, pid0, i);
        ids := ids[Get(ps[i], "passage_id") := next];
        var _ := Put(Passages, PassageCopy(ps[i], next, fid));
        next := next + 1;
      }
      assert ps[..|ps|] == ps && copies[..|ps|] == copies;
    }

    method PutFile(a: Answer, d: Row, fid: int, pid0: int, dest: Value, stamp: Value) returns (next: int)
      modifies this
      ensures rows == CopyFile(old(rows), a, d, fid, pid0, dest, stamp)
      ensures next == pid0 + |PassagesOf(a, Get(d, "file_id"))|
    {
      hide WithPassages;
      hide InsertAll;
      var nid := Get(d, "file_id");
      var _ := Put(Files, FileCopy(d, fid, dest, stamp));
      var ids;
      ids, next := PutPassages(a, nid, fid, pid0);
      PutAll(FileTags, Renumbered(Rows(a, FileTags), "file_id", map[nid := fid]));
      PutAll(PassageRecordings,
             Renumbered(Where(Rows(a, PassageRecordings), HeldIn(rows, Recordings, "mbid")), "passage_id", ids));
      PutAll(IdChecks, Renumbered(Rows(a, IdChecks), "passage_id", ids));
      PutAll(FileReleases, Where(Rows(a, FileReleases), In("audio_md5", {Get(d, "audio_md5")})));
    }

    /** The node's wanted files; not `placed` when one lies outside the node's music root. */
    method PutFiles(a: Answer, node: string, keys: set<Value>, cfg: Config) returns (placed: bool)
      modifies this
      ensures placed <==> AddFiles(old(rows), a, node, keys, cfg).Some?
      ensures placed ==> rows == AddFiles(old(rows), a, node, keys, cfg).value
    {
      hide CopyFile;
      hide HoldsAudio;
      hide WantedAudio;
      hide NextId;
      hide PassagesOf;
      var files, want := Rows(a, Files), WantedAudio(a, keys);
      var place := path => cfg.place(node, path);
      var fid, pid := NextId(rows, Files), NextId(rows, Passages);
      ghost var all := CopyFiles(rows, a, files, want, fid, pid, place, cfg.stamp);
      for i := 0 to |files|
        invariant CopyFiles(rows, a, files[i..], want, fid, pid, place, cfg.stamp) == all
      {
        var d := files[i];
        assert files[i..][1..] == files[i + 1..];
        if Get(d, "audio_md5") in want && !HoldsAudio(rows, Get(d, "audio_md5")) {
          var dest := place(Get(d, "path"));
          if dest.None? {
            return false;
          }
          pid := PutFile(a, d, fid, pid, dest.value, cfg.stamp);
          fid := fid + 1;
        }
      }
      placed := true;
    }

    /** One finding inside its savepoint. */
    method Apply(f: Finding, cfg: Config)
      modifies this
      ensures rows == StepDb(old(rows), f, cfg)
    {
      hide RepairDb;
      hide AddFiles;
      hide EffectOf;
      var savepoint := rows;
      match EffectOf(f, cfg) {
        case Nothing =>
        case RemoveRows =>
          Delete(f);
        case RepairRows(node, withFiles) =>
          var a := cfg.answers[node];
          RepairFrom(f, a);
          if withFiles {
            var placed := PutFiles(a, node, Offered(f, a), cfg);
            if !placed {
              rows := savepoint;
            }
          }
      }
      if f in cfg.failing {
        rows := savepoint;
      }
    }

    method Correct(fs: seq<Finding>, cfg: Config)
      modifies this
      ensures rows == CorrectDb(old(rows), fs, cfg)
    {
      for i := 0 to |fs|
        invariant rows == CorrectDb(old(rows), fs[..i], cfg)
      {
        assert fs[..i + 1][..i] == fs[..i];
        Apply(fs[i], cfg);
      }
      assert fs[..|fs|] == fs;
    }
  }
}
