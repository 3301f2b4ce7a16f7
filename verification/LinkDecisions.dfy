/**
 What the decisions about dangling links do, said of the rows alone, after tools/catalogue_integrity.py: when a
 removal goes ahead and when it is held, what a repair brings and from where, and that nothing else changes.
 */
module LinkDecisions {
  import opened Optional
  import opened CatalogueIntegrity

  // -------------------------------------------------------------------- finding

  /** Every dangling row is some finding's, under the key it misses; and every release without a tracklist is one. */
  lemma AllFound(db: Db)
    ensures forall x, c :: Dangles(db, x, c) ==>
      exists f :: f in Find(db) && f.Broken? && f.table == x.0 && f.column == c && x in f.rows
                  && Get(db[x], c) in f.missing
    ensures forall v :: Held(db, Releases, v)
                        && (forall x :: x in db && x.0 == ReleaseRecordings ==> Get(db[x], "release_mbid") != v) ==>
      exists f :: f in Find(db) && f.NoTracklist? && f.mbid == v
  {
    forall x, c | Dangles(db, x, c)
      ensures exists f :: f in Find(db) && f.Broken? && f.table == x.0 && f.column == c && x in f.rows
                          && Get(db[x], c) in f.missing
    {
      assert BrokenAt(db, x.0, c, OwnerOf(x.0, db[x], c)) in Find(db);
    }
    forall v | Held(db, Releases, v)
               && (forall x :: x in db && x.0 == ReleaseRecordings ==> Get(db[x], "release_mbid") != v)
      ensures exists f :: f in Find(db) && f.NoTracklist? && f.mbid == v
    {
      var x := (Releases, [v]);
      assert x.1[0] == v && !NamesRelease(db, ReleaseRecordings, x.1[0]);
      assert NoTracklist(x.1[0], NamesRelease(db, FileReleases, x.1[0])) in Find(db);
    }
  }

  /** Whether two rows agree in a table's key, a column aside. */
  ghost predicate Agrees(t: Table, r: Row, column: string, owner: Owner)
  {
    forall c :: c in PrimaryKey(t) && c != column ==> c in owner && owner[c] == Get(r, c)
  }

  /** A finding's rows are those of its table that dangle in its column and share the rest of their key. */
  lemma FoundTogether(db: Db, f: Finding)
    requires f in Find(db) && f.Broken?
    ensures forall x :: x in f.rows <==>
      x in db && x.0 == f.table && Dangles(db, x, f.column) && Agrees(f.table, db[x], f.column, f.owner)
    ensures forall v :: v in f.missing <==> exists x :: x in f.rows && x in db && Get(db[x], f.column) == v
  {
    BrokenFound(db, f);
    var y, c0 :| y in db && c0 in Columns(y.0) && Dangles(db, y, c0)
                 && f == BrokenAt(db, y.0, c0, OwnerOf(y.0, db[y], c0));
    hide Find;
    forall x | x in db && x.0 == f.table
      ensures OwnerOf(f.table, db[x], f.column) == f.owner <==> Agrees(f.table, db[x], f.column, f.owner)
    {
    }
  }

  // ------------------------------------------------------------------- deciding

  /** Links and nothing more may go, and a release that no file was taken from. */
  ghost predicate KindMayGo(db: Db, f: Finding)
  {
    match f
    case Broken(t, _, _, _, _) => t == ReleaseRecordings || t == RecordingArtists || t == RecordingRelations
    case NoTracklist(v, _) => forall x :: x in db && x.0 == FileReleases ==> Get(db[x], "release_mbid") != v
  }

  /** The node sends a row that the finding misses: a row under a missing key, or a track of the release it can name. */
  ghost predicate Supplies(a: Answer, f: Finding)
  {
    match f
    case Broken(_, column, _, missing, _) =>
      var parent := ParentOf(column);
      (parent == Recordings || parent == Releases || parent == Artists)
      && exists d :: d in Rows(a, parent) && Get(d, "mbid") in missing
    case NoTracklist(v, _) => exists d :: d in Rows(a, ReleaseRecordings) && IsTrack(a, v, d)
  }

  /** A tracklist row of the release, whose recording the node sends too. */
  ghost predicate IsTrack(a: Answer, release: Value, d: Row)
  {
    Get(d, "release_mbid") == release && exists r :: r in Rows(a, Recordings) && Get(r, "mbid") == Get(d, "mbid")
  }

  /** The removal goes ahead: every node that sends what is missing was among those seen when it was decided. */
  ghost predicate RemovalGoes(db0: Db, f: Finding, cfg: Config)
  {
    && f in cfg.decisions && cfg.decisions[f].Remove? && KindMayGo(db0, f) && f !in cfg.failing
    && forall n :: n in cfg.answers && Supplies(cfg.answers[n], f) ==> n in cfg.decisions[f].offersSeen
  }

  /** The repair goes ahead from this node, with its files or without. */
  ghost predicate RepairGoes(f: Finding, cfg: Config, node: string, withFiles: bool)
  {
    && f in cfg.decisions && f !in cfg.failing && node in cfg.answers && Supplies(cfg.answers[node], f)
    && if withFiles then
         var a := cfg.answers[node];
         cfg.decisions[f] == RepairFiles(node) && a.byRecording && a.fetchable && a.hasRoot
         && f.Broken? && ParentOf(f.column) == Recordings
       else
         cfg.decisions[f] == Repair(node)
  }

  lemma OfferedIffSupplied(f: Finding, a: Answer)
    ensures Offered(f, a) != {} <==> Supplies(a, f)
  {
    match f
    case Broken(_, column, _, missing, _) =>
      var parent := ParentOf(column);
      if Offered(f, a) != {} {
        var v :| v in Offered(f, a);
        var d :| d in Rows(a, parent) && Get(d, "mbid") == v;
      }
      if Supplies(a, f) {
        var d :| d in Rows(a, parent) && Get(d, "mbid") in missing;
        assert Get(d, "mbid") in Offered(f, a);
      }
    case NoTracklist(v, _) =>
      if Offered(f, a) != {} {
        assert v in Offered(f, a);
        var d :| d in NamedTracks(a) && Get(d, "release_mbid") == v;
        assert IsTrack(a, v, d);
      }
      if Supplies(a, f) {
        var d :| d in Rows(a, ReleaseRecordings) && IsTrack(a, v, d);
        assert d in NamedTracks(a);
        assert v in Offered(f, a);
      }
  }

  lemma RemovableIff(db0: Db, f: Finding)
    requires f in Find(db0)
    ensures Removable(f) <==> KindMayGo(db0, f)
  {
    if f.NoTracklist? {
      TracklessFound(db0, f);
    }
  }

  lemma EffectIs(db0: Db, f: Finding, cfg: Config)
    requires f in Find(db0) && f !in cfg.failing
    ensures EffectOf(f, cfg).RemoveRows? <==> RemovalGoes(db0, f, cfg)
    ensures forall n, w :: EffectOf(f, cfg) == RepairRows(n, w) <==> RepairGoes(f, cfg, n, w)
  {
    hide Find;
    hide Offered;
    hide Supplies;
    hide Removable;
    hide KindMayGo;
    RemovableIff(db0, f);
    forall n | n in cfg.answers ensures n in Offering(f, cfg) <==> Supplies(cfg.answers[n], f) {
      OfferedIffSupplied(f, cfg.answers[n]);
    }
    if f in cfg.decisions && cfg.decisions[f].Remove? {
      var seen := cfg.decisions[f].offersSeen;
      assert Offering(f, cfg) - seen == {} <==> forall n :: n in Offering(f, cfg) ==> n in seen by {
        assert forall n :: n in Offering(f, cfg) - seen <==> n in Offering(f, cfg) && n !in seen;
      }
    }
  }

  // ------------------------------------------------------------ what a repair brings

  /** A row that comes with some recordings of the node: of its own, or of their artists, credits and flavor. */
  ghost predicate ComesWith(a: Answer, keys: set<Value>, db: Db, t: Table, d: Row)
  {
    d in Rows(a, t)
    && match t
       case Recordings => Get(d, "mbid") in keys
       case Artists =>
         exists c :: c in Rows(a, RecordingArtists) && Get(c, "mbid") in keys && Get(c, "artist_mbid") == Get(d, "mbid")
       case RecordingArtists => Get(d, "mbid") in keys && Held(db, Artists, Get(d, "artist_mbid"))
       case Flavor => Get(d, "subject_kind") == Text("recording") && Get(d, "subject_id") in keys
       case _ => false
  }

  /** db' is db with such rows of the node as it does not hold, and no others. */
  ghost predicate Brings(db: Db, db': Db, wanted: iset<(Table, Row)>)
  {
    && (forall x :: x in db ==> x in db' && db'[x] == db[x])
    && (forall w :: w in wanted ==> (w.0, KeyOf(w.0, w.1)) in db')
    && (forall x :: x in db' && x !in db ==> (x.0, db'[x]) in wanted && x.1 == KeyOf(x.0, db'[x]))
  }

  ghost function These(t: Table, rows: seq<Row>): iset<(Table, Row)>
  {
    iset d | d in rows :: (t, d)
  }

  lemma {:induction false} InsertsExactly(db: Db, t: Table, rows: seq<Row>)
    ensures Brings(db, InsertAll(db, t, rows), These(t, rows))
  {
    hide KeyOf;
    if rows != [] {
      var init, d := rows[..|rows| - 1], rows[|rows| - 1];
      assert rows == init + [d];
      InsertsExactly(db, t, init);
      InsertsOne(db, InsertAll(db, t, init), t, These(t, init), d);
      assert These(t, rows) == These(t, init) + iset{(t, d)};
    }
  }

  lemma InsertsOne(db: Db, db1: Db, t: Table, wanted: iset<(Table, Row)>, d: Row)
    requires Brings(db, db1, wanted)
    ensures Brings(db, Insert(db1, t, d), wanted + iset{(t, d)})
  {
    hide KeyOf;
  }

  /** One table's rows after another's. */
  lemma BringsThen(db: Db, db1: Db, db2: Db, first: iset<(Table, Row)>, second: iset<(Table, Row)>)
    requires Brings(db, db1, first) && Brings(db1, db2, second)
    ensures Brings(db, db2, first + second)
  {
    hide KeyOf;
  }

  /** What comes with some recordings, of one table. */
  ghost function Coming(a: Answer, keys: set<Value>, db: Db, t: Table): iset<(Table, Row)>
  {
    iset d | d in Rows(a, t) && ComesWith(a, keys, db, t, d) :: (t, d)
  }

  lemma ArtistsCome(db: Db, a: Answer, keys: set<Value>)
    ensures Brings(db, WithArtists(db, a, keys), Coming(a, keys, db, Artists))
  {
    hide Brings;
    hide InsertAll;
    var credits := Where(Rows(a, RecordingArtists), In("mbid", keys));
    var rows := Where(Rows(a, Artists), In("mbid", Values(credits, "artist_mbid")));
    InsertsExactly(db, Artists, rows);
    forall d ensures d in rows <==> d in Rows(a, Artists) && ComesWith(a, keys, db, Artists, d) {
    }
    assert These(Artists, rows) == Coming(a, keys, db, Artists);
  }

  lemma RecordingsCome(db: Db, a: Answer, keys: set<Value>)
    ensures Brings(WithArtists(db, a, keys), WithRecordings(db, a, keys), Coming(a, keys, db, Recordings))
  {
    hide Brings;
    hide InsertAll;
    hide WithArtists;
    var rows := Where(Rows(a, Recordings), In("mbid", keys));
    InsertsExactly(WithArtists(db, a, keys), Recordings, rows);
    assert These(Recordings, rows) == Coming(a, keys, db, Recordings);
  }

  lemma CreditsCome(db: Db, a: Answer, keys: set<Value>)
    ensures Brings(WithRecordings(db, a, keys), WithCredits(db, a, keys),
                   Coming(a, keys, WithRecordings(db, a, keys), RecordingArtists))
  {
    hide Brings;
    hide InsertAll;
    hide WithRecordings;
    var db2 := WithRecordings(db, a, keys);
    var rows := Where(Where(Rows(a, RecordingArtists), In("mbid", keys)), HeldIn(db2, Artists, "artist_mbid"));
    InsertsExactly(db2, RecordingArtists, rows);
    forall d ensures d in rows <==> d in Rows(a, RecordingArtists) && ComesWith(a, keys, db2, RecordingArtists, d) {
    }
    assert These(RecordingArtists, rows) == Coming(a, keys, db2, RecordingArtists);
  }

  lemma FlavorComes(db: Db, a: Answer, keys: set<Value>)
    ensures Brings(WithCredits(db, a, keys), AddRecordings(db, a, keys), Coming(a, keys, db, Flavor))
  {
    hide Brings;
    hide InsertAll;
    hide WithCredits;
    var rows := Where(Rows(a, Flavor), RecordingFlavor(keys));
    InsertsExactly(WithCredits(db, a, keys), Flavor, rows);
    assert These(Flavor, rows) == Coming(a, keys, db, Flavor);
  }

  /** Which artists are held, rows of other tables do not change. */
  lemma ArtistsUnchanged(db: Db, db': Db, wanted: iset<(Table, Row)>)
    requires Brings(db, db', wanted) && forall w :: w in wanted ==> w.0 != Artists
    ensures forall v :: Held(db', Artists, v) <==> Held(db, Artists, v)
  {
    hide KeyOf;
  }

  /** Everything that comes with some recordings. */
  ghost function AllComing(a: Answer, keys: set<Value>, db: Db): iset<(Table, Row)>
  {
    iset t, d | d in Rows(a, t) && ComesWith(a, keys, db, t, d) :: (t, d)
  }

  lemma ComesAlike(a: Answer, keys: set<Value>, db: Db, db': Db, t: Table, d: Row)
    requires t == RecordingArtists ==> forall v :: Held(db', Artists, v) <==> Held(db, Artists, v)
    ensures ComesWith(a, keys, db', t, d) <==> ComesWith(a, keys, db, t, d)
  {
  }

  lemma FourTables(a: Answer, keys: set<Value>, db: Db, t: Table, d: Row)
    requires ComesWith(a, keys, db, t, d)
    ensures d in Rows(a, t) && (t == Artists || t == Recordings || t == RecordingArtists || t == Flavor)
  {
  }

  lemma AllTablesCome(a: Answer, keys: set<Value>, db: Db, db2: Db, db4: Db)
    requires forall v :: Held(db4, Artists, v) <==> Held(db2, Artists, v)
    ensures AllComing(a, keys, db4)
         == Coming(a, keys, db, Artists) + Coming(a, keys, db, Recordings) + Coming(a, keys, db2, RecordingArtists)
            + Coming(a, keys, db, Flavor)
  {
    hide ComesWith;
    hide Held;
    hide Rows;
    forall t, d ensures (t, d) in AllComing(a, keys, db4) <==>
      (t, d) in Coming(a, keys, db, Artists) + Coming(a, keys, db, Recordings) + Coming(a, keys, db2, RecordingArtists)
                + Coming(a, keys, db, Flavor)
    {
      if ComesWith(a, keys, db4, t, d) {
        FourTables(a, keys, db4, t, d);
      }
      if t == RecordingArtists {
        ComesAlike(a, keys, db2, db4, t, d);
      } else {
        ComesAlike(a, keys, db, db4, t, d);
      }
    }
  }

  /** A repair's recordings bring their artists, credits and flavor, and nothing more. */
  lemma RecordingsBring(db: Db, a: Answer, keys: set<Value>)
    ensures Brings(db, AddRecordings(db, a, keys), AllComing(a, keys, AddRecordings(db, a, keys)))
  {
    hide Brings;
    hide Held;
    hide ComesWith;
    hide WithArtists;
    hide WithRecordings;
    hide WithCredits;
    hide AddRecordings;
    var db1, db2, db3 := WithArtists(db, a, keys), WithRecordings(db, a, keys), WithCredits(db, a, keys);
    var db4 := AddRecordings(db, a, keys);
    ArtistsCome(db, a, keys);
    RecordingsCome(db, a, keys);
    CreditsCome(db, a, keys);
    FlavorComes(db, a, keys);
    var artists, recs := Coming(a, keys, db, Artists), Coming(a, keys, db, Recordings);
    var credits, flavor := Coming(a, keys, db2, RecordingArtists), Coming(a, keys, db, Flavor);
    ArtistsUnchanged(db2, db3, credits);
    ArtistsUnchanged(db3, db4, flavor);
    BringsThen(db, db1, db2, artists, recs);
    BringsThen(db, db2, db3, artists + recs, credits);
    BringsThen(db, db3, db4, artists + recs + credits, flavor);
    AllTablesCome(a, keys, db, db2, db4);
  }

  /** The tracks of a release that the node can name. */
  ghost function TracksOf(a: Answer, release: Value): iset<(Table, Row)>
  {
    iset d | d in Rows(a, ReleaseRecordings) && IsTrack(a, release, d) :: (ReleaseRecordings, d)
  }

  ghost function TrackKeys(a: Answer, release: Value): set<Value>
  {
    set d | d in Rows(a, ReleaseRecordings) && IsTrack(a, release, d) :: Get(d, "mbid")
  }

  /** What a repair of a finding brings from a node, into the catalogue db that it ends with. */
  ghost function Repairing(f: Finding, a: Answer, db: Db): iset<(Table, Row)>
  {
    match f
    case Broken(_, column, _, missing, _) =>
      (match ParentOf(column)
       case Recordings => AllComing(a, Values(Rows(a, Recordings), "mbid") * missing, db)
       case Releases => iset d | d in Rows(a, Releases) && Get(d, "mbid") in missing :: (Releases, d)
       case Artists => iset d | d in Rows(a, Artists) && Get(d, "mbid") in missing :: (Artists, d)
       case _ => iset{})
    case NoTracklist(v, _) => AllComing(a, TrackKeys(a, v), db) + TracksOf(a, v)
  }

  lemma BrokenBrings(db: Db, f: Finding, a: Answer)
    requires f.Broken?
    ensures Brings(db, RepairDb(db, f, a), Repairing(f, a, RepairDb(db, f, a)))
  {
    hide Brings;
    hide AllComing;
    hide AddRecordings;
    var t, keys := ParentOf(f.column), Offered(f, a);
    if t == Recordings {
      RecordingsBring(db, a, keys);
    } else {
      var rows := Where(Rows(a, t), In("mbid", keys));
      InsertsExactly(db, t, rows);
      assert These(t, rows) == Repairing(f, a, RepairDb(db, f, a));
    }
  }

  lemma TracksAreNamed(a: Answer, release: Value, keys: set<Value>)
    requires keys == Values(NamedTracks(a), "release_mbid") * {release}
    ensures forall d :: d in OfferedTracks(a, keys) <==> d in Rows(a, ReleaseRecordings) && IsTrack(a, release, d)
    ensures Values(OfferedTracks(a, keys), "mbid") == TrackKeys(a, release)
  {
    forall d ensures d in NamedTracks(a) && Get(d, "release_mbid") == release
      <==> d in Rows(a, ReleaseRecordings) && IsTrack(a, release, d)
    {
    }
    forall d | d in NamedTracks(a) && Get(d, "release_mbid") == release ensures d in OfferedTracks(a, keys) {
      assert release in Values(NamedTracks(a), "release_mbid");
    }
    hide IsTrack;
    hide NamedTracks;
    assert forall d :: d in OfferedTracks(a, keys) <==> d in Rows(a, ReleaseRecordings) && IsTrack(a, release, d);
    hide OfferedTracks;
  }

  lemma AllComingAlike(a: Answer, keys: set<Value>, db: Db, db': Db)
    requires forall v :: Held(db', Artists, v) <==> Held(db, Artists, v)
    ensures AllComing(a, keys, db') == AllComing(a, keys, db)
  {
    hide ComesWith;
    hide Held;
    forall t, d ensures ComesWith(a, keys, db', t, d) <==> ComesWith(a, keys, db, t, d) {
      ComesAlike(a, keys, db, db', t, d);
    }
  }

  lemma TracklistBrings(db: Db, f: Finding, a: Answer)
    requires f.NoTracklist?
    ensures Brings(db, RepairDb(db, f, a), Repairing(f, a, RepairDb(db, f, a)))
  {
    hide Brings;
    hide AllComing;
    hide AddRecordings;
    hide InsertAll;
    hide OfferedTracks;
    var keys := Offered(f, a);
    var tracks := OfferedTracks(a, keys);
    TracksAreNamed(a, f.mbid, keys);
    OfferedTracksFacts(a, f.mbid, keys);
    hide TrackKeys;
    hide Offered;
    var names := Values(tracks, "mbid");
    var db1 := AddRecordings(db, a, names);
    var rows := Where(tracks, HeldIn(db1, Recordings, "mbid"));
    RecordingsBring(db, a, names);
    AddRecordingsFacts(db, a, names);
    InsertsExactly(db1, ReleaseRecordings, rows);
    forall d | d in tracks ensures d in rows {
      assert Get(d, "mbid") in names;
    }
    assert These(ReleaseRecordings, rows) == TracksOf(a, f.mbid);
    var db' := InsertAll(db1, ReleaseRecordings, rows);
    ArtistsUnchanged(db1, db', These(ReleaseRecordings, rows));
    AllComingAlike(a, names, db1, db');
    BringsThen(db, db1, db', AllComing(a, names, db1), TracksOf(a, f.mbid));
  }

  /** A repair brings exactly the node's rows that the finding misses, with what comes with them. */
  lemma RepairBrings(db: Db, f: Finding, a: Answer)
    ensures Brings(db, RepairDb(db, f, a), Repairing(f, a, RepairDb(db, f, a)))
  {
    if f.Broken? {
      BrokenBrings(db, f, a);
    } else {
      TracklistBrings(db, f, a);
    }
  }

  // ------------------------------------------------------------------ its files

  /** The file is one of the node's, and a passage of it is credited to one of some recordings. */
  ghost predicate Needed(a: Answer, keys: set<Value>, d: Row)
  {
    d in Rows(a, Files)
    && exists c, p :: c in Rows(a, PassageRecordings) && Get(c, "mbid") in keys && p in Rows(a, Passages)
                      && Get(p, "passage_id") == Get(c, "passage_id") && Get(d, "file_id") == Get(p, "file_id")
  }

  ghost predicate AudioHeldIn(db: Db, md5: Value)
  {
    exists x :: x in db && x.0 == Files && Get(db[x], "audio_md5") == md5
  }

  /** A file's row as it is catalogued: its place and its dates are the hub's, all else is the node's. */
  ghost predicate FileAsSent(db: Db, x: (Table, Key), d: Row, dest: Value, stamp: Value)
  {
    && x in db && x.0 == Files && x.1 == [Get(db[x], "file_id")]
    && Get(db[x], "path") == dest && Get(db[x], "first_seen") == stamp && Get(db[x], "last_seen") == stamp
    && forall c :: c !in {"file_id", "path", "first_seen", "last_seen"} ==> Get(db[x], c) == Get(d, c)
  }

  /** x is a file of db' that db does not hold, made of d. */
  ghost predicate NewFile(db: Db, db': Db, x: (Table, Key), d: Row, place: Value -> Option<Value>, stamp: Value)
  {
    x !in db && place(Get(d, "path")).Some? && FileAsSent(db', x, d, place(Get(d, "path")).value, stamp)
  }

  lemma FileIsAsSent(d: Row, fid: int, dest: Value, stamp: Value, db: Db)
    requires (Files, [Int(fid)]) in db && db[(Files, [Int(fid)])] == FileCopy(d, fid, dest, stamp)
    ensures FileAsSent(db, (Files, [Int(fid)]), d, dest, stamp)
  {
  }

  /** What hangs on a file is in other tables. */
  lemma HangersElsewhere(db: Db, a: Answer, d: Row, fid: int, ids: map<Value, int>)
    ensures Leaves(db, WithHangers(db, a, d, fid, ids), Files) && Keeps(db, WithHangers(db, a, d, fid, ids))
  {
    hide Renumbered;
    hide Where;
    hide InsertAll;
    hide Leaves;
    hide Keeps;
    var nid := Get(d, "file_id");
    var db1 := WithTags(db, a, nid, fid);
    var db2 := WithPassageCredits(db1, a, ids);
    var db3 := WithChecks(db2, a, ids);
    var db4 := WithFileReleases(db3, a, Get(d, "audio_md5"));
    InsertsElsewhere(db, FileTags, Renumbered(Rows(a, FileTags), "file_id", map[nid := fid]), Files);
    InsertsElsewhere(db1, PassageRecordings,
      Renumbered(Where(Rows(a, PassageRecordings), HeldIn(db1, Recordings, "mbid")), "passage_id", ids), Files);
    InsertsElsewhere(db2, IdChecks, Renumbered(Rows(a, IdChecks), "passage_id", ids), Files);
    InsertsElsewhere(db3, FileReleases, Where(Rows(a, FileReleases), In("audio_md5", {Get(d, "audio_md5")})), Files);
    LeavesTwice(db, db1, db2, Files);
    LeavesTwice(db, db2, db3, Files);
    LeavesTwice(db, db3, db4, Files);
  }

  lemma FileInserted(db: Db, d: Row, fid: int, dest: Value, stamp: Value)
    requires FreshFrom(db, Files, fid)
    ensures (Files, [Int(fid)]) !in db
    ensures WithFile(db, d, fid, dest, stamp) == db[(Files, [Int(fid)]) := FileCopy(d, fid, dest, stamp)]
  {
    IdKey(Files, FileCopy(d, fid, dest, stamp), "file_id", fid);
  }

  lemma OnlyFileAdded(db: Db, db1: Db, db': Db, fid: int, row: Row)
    requires FreshFrom(db, Files, fid) && db1 == db[(Files, [Int(fid)]) := row]
    requires Leaves(db1, db', Files) && Keeps(db1, db')
    ensures Keeps(db, db') && (Files, [Int(fid)]) in db' && db'[(Files, [Int(fid)])] == row
    ensures forall y :: y in db' && y.0 == Files ==> y in db || y == (Files, [Int(fid)])
    ensures FreshFrom(db', Files, fid + 1)
  {
    assert (Files, [Int(fid)]) !in db;
  }

  /** One file copied adds one row to the files. */
  lemma OneFileAdded(db: Db, a: Answer, d: Row, fid: int, pid0: int, dest: Value, stamp: Value)
    requires FreshFrom(db, Files, fid)
    ensures var db', x := CopyFile(db, a, d, fid, pid0, dest, stamp), (Files, [Int(fid)]);
      && Keeps(db, db') && x !in db && x in db' && db'[x] == FileCopy(d, fid, dest, stamp)
      && (forall y :: y in db' && y.0 == Files ==> y in db || y == x) && FreshFrom(db', Files, fid + 1)
  {
    var nid, ids := Get(d, "file_id"), NewIds(PassagesOf(a, Get(d, "file_id")), pid0);
    var db1 := WithFile(db, d, fid, dest, stamp);
    var db2 := WithPassages(db1, a, nid, fid, pid0);
    FileInserted(db, d, fid, dest, stamp);
    InsertsElsewhere(db1, Passages, PassageCopies(PassagesOf(a, nid), pid0, fid), Files);
    HangersElsewhere(db2, a, d, fid, ids);
    hide WithFile;
    hide WithHangers;
    hide FileCopy;
    hide Leaves;
    hide Keeps;
    hide FreshFrom;
    hide NewIds;
    hide PassagesOf;
    hide Get;
    assert db2 == InsertAll(db1, Passages, PassageCopies(PassagesOf(a, nid), pid0, fid));
    hide WithPassages;
    hide InsertAll;
    LeavesTwice(db1, db2, CopyFile(db, a, d, fid, pid0, dest, stamp), Files);
    OnlyFileAdded(db, db1, CopyFile(db, a, d, fid, pid0, dest, stamp), fid, FileCopy(d, fid, dest, stamp));
  }

  /** The file is wanted, and its audio is not held. */
  ghost predicate Lacking(db: Db, files: seq<Row>, want: set<Value>, d: Row)
  {
    d in files && Get(d, "audio_md5") in want && !AudioHeldIn(db, Get(d, "audio_md5"))
  }

  ghost predicate AllLackingCome(db: Db, db': Db, files: seq<Row>, want: set<Value>, place: Value -> Option<Value>,
                                 stamp: Value)
  {
    forall d :: Lacking(db, files, want, d) ==> exists x :: NewFile(db, db', x, d, place, stamp)
  }

  ghost predicate OnlyLackingCome(db: Db, db': Db, files: seq<Row>, want: set<Value>, place: Value -> Option<Value>,
                                  stamp: Value)
  {
    forall x :: x in db' && x !in db && x.0 == Files ==>
      exists d :: Lacking(db, files, want, d) && NewFile(db, db', x, d, place, stamp)
  }

  /** Exactly the files wanted whose audio is not held are catalogued, each as the node sent it. */
  ghost predicate FilesComeFrom(db: Db, db': Db, files: seq<Row>, want: set<Value>, place: Value -> Option<Value>,
                                stamp: Value)
  {
    AllLackingCome(db, db', files, want, place, stamp) && OnlyLackingCome(db, db', files, want, place, stamp)
  }

  /** Some wanted file whose audio is not held has no place to go. */
  ghost predicate SomeUnplaced(db: Db, files: seq<Row>, want: set<Value>, place: Value -> Option<Value>)
  {
    exists d :: Lacking(db, files, want, d) && place(Get(d, "path")).None?
  }

  lemma AudioSame(db: Db, md5: Value)
    ensures AudioHeldIn(db, md5) <==> HoldsAudio(db, md5)
  {
  }

  lemma AudioOf(db: Db, db': Db, row: Row, fid: int, md5: Value)
    requires Keeps(db, db') && (Files, [Int(fid)]) in db' && db'[(Files, [Int(fid)])] == row
    requires forall y :: y in db' && y.0 == Files ==> y in db || y == (Files, [Int(fid)])
    ensures AudioHeldIn(db', md5) <==> AudioHeldIn(db, md5) || Get(row, "audio_md5") == md5
  {
  }

  lemma NewFileLater(db: Db, db1: Db, db': Db, x: (Table, Key), d: Row, place: Value -> Option<Value>, stamp: Value)
    requires Keeps(db, db1) && Keeps(db1, db')
    requires NewFile(db1, db', x, d, place, stamp) || NewFile(db, db1, x, d, place, stamp)
    ensures NewFile(db, db', x, d, place, stamp)
  {
  }

  lemma LackingRest(db: Db, db1: Db, files: seq<Row>, want: set<Value>, d: Row)
    requires files != [] && DistinctIds(files, "audio_md5") && d != files[0]
    requires forall m :: AudioHeldIn(db1, m) <==> AudioHeldIn(db, m) || Get(files[0], "audio_md5") == m
    ensures Lacking(db1, files[1..], want, d) <==> Lacking(db, files, want, d)
  {
    hide AudioHeldIn;
    hide Get;
    if d in files {
      OtherAudio(files, d);
    }
  }

  lemma FirstNotAgain(db: Db, db1: Db, files: seq<Row>, want: set<Value>)
    requires files != []
    requires forall m :: AudioHeldIn(db1, m) <==> AudioHeldIn(db, m) || Get(files[0], "audio_md5") == m
    ensures !Lacking(db1, files[1..], want, files[0])
  {
  }

  lemma LackingPassed(db: Db, files: seq<Row>, want: set<Value>, d: Row)
    requires files != [] && (Get(files[0], "audio_md5") !in want || AudioHeldIn(db, Get(files[0], "audio_md5")))
    ensures Lacking(db, files[1..], want, d) <==> Lacking(db, files, want, d)
  {
    assert d in files <==> d == files[0] || d in files[1..];
  }

  lemma ComeFromFirst(db: Db, db1: Db, db': Db, files: seq<Row>, want: set<Value>, place: Value -> Option<Value>,
                      stamp: Value, x0: (Table, Key))
    requires files != [] && DistinctIds(files, "audio_md5") && Keeps(db, db1) && Keeps(db1, db')
    requires Lacking(db, files, want, files[0]) && NewFile(db, db1, x0, files[0], place, stamp)
    requires forall y :: y in db1 && y.0 == Files ==> y in db || y == x0
    requires forall m :: AudioHeldIn(db1, m) <==> AudioHeldIn(db, m) || Get(files[0], "audio_md5") == m
    requires FilesComeFrom(db1, db', files[1..], want, place, stamp)
    ensures FilesComeFrom(db, db', files, want, place, stamp)
  {
    hide NewFile;
    hide AudioHeldIn;
    hide DistinctIds;
    hide Lacking;
    hide Keeps;
    hide Get;
    NewFileLater(db, db1, db', x0, files[0], place, stamp);
    forall d | Lacking(db, files, want, d) ensures exists x :: NewFile(db, db', x, d, place, stamp) {
      if d != files[0] {
        LackingRest(db, db1, files, want, d);
        var x :| NewFile(db1, db', x, d, place, stamp);
        NewFileLater(db, db1, db', x, d, place, stamp);
      }
    }
    forall x | x in db' && x !in db && x.0 == Files
      ensures exists d :: Lacking(db, files, want, d) && NewFile(db, db', x, d, place, stamp)
    {
      if x in db1 {
        assert x == x0;
      } else {
        var d :| Lacking(db1, files[1..], want, d) && NewFile(db1, db', x, d, place, stamp);
        FirstNotAgain(db, db1, files, want);
        LackingRest(db, db1, files, want, d);
        NewFileLater(db, db1, db', x, d, place, stamp);
      }
    }
  }

  lemma OtherAudio(files: seq<Row>, d: Row)
    requires files != [] && DistinctIds(files, "audio_md5") && d in files && d != files[0]
    ensures d in files[1..] && Get(d, "audio_md5") != Get(files[0], "audio_md5")
  {
    var i :| 0 <= i < |files| && files[i] == d;
    assert files[1..][i - 1] == d;
  }

  lemma ComeFromRest(db: Db, db': Db, files: seq<Row>, want: set<Value>, place: Value -> Option<Value>, stamp: Value)
    requires files != [] && FilesComeFrom(db, db', files[1..], want, place, stamp)
    requires Get(files[0], "audio_md5") !in want || AudioHeldIn(db, Get(files[0], "audio_md5"))
    ensures FilesComeFrom(db, db', files, want, place, stamp)
  {
    forall d ensures Lacking(db, files[1..], want, d) <==> Lacking(db, files, want, d) {
      LackingPassed(db, files, want, d);
    }
    hide NewFile;
    hide Lacking;
  }

  lemma UnplacedRest(db: Db, db1: Db, files: seq<Row>, want: set<Value>, place: Value -> Option<Value>)
    requires files != [] && DistinctIds(files, "audio_md5") && place(Get(files[0], "path")).Some?
    requires forall m :: AudioHeldIn(db1, m) <==> AudioHeldIn(db, m) || Get(files[0], "audio_md5") == m
    ensures SomeUnplaced(db1, files[1..], want, place) <==> SomeUnplaced(db, files, want, place)
  {
    FirstNotAgain(db, db1, files, want);
    forall d | d != files[0] ensures Lacking(db1, files[1..], want, d) <==> Lacking(db, files, want, d) {
      LackingRest(db, db1, files, want, d);
    }
    hide Lacking;
    hide AudioHeldIn;
    hide DistinctIds;
  }

  lemma CopiesNothing(db: Db, want: set<Value>, place: Value -> Option<Value>, stamp: Value)
    ensures !SomeUnplaced(db, [], want, place) && Keeps(db, db) && FilesComeFrom(db, db, [], want, place, stamp)
  {
  }

  /** The first file copied, and what the others then do. */
  lemma CopiesFirst(db: Db, db': Option<Db>, a: Answer, files: seq<Row>, want: set<Value>, fid: int, pid0: int,
                    place: Value -> Option<Value>, stamp: Value, dest: Value, db1: Db)
    requires files != [] && DistinctIds(files, "audio_md5") && FreshFrom(db, Files, fid)
    requires Lacking(db, files, want, files[0]) && place(Get(files[0], "path")) == Some(dest)
    requires db1 == CopyFile(db, a, files[0], fid, pid0, dest, stamp)
    requires FreshFrom(db1, Files, fid + 1) ==>
      && (db'.None? <==> SomeUnplaced(db1, files[1..], want, place))
      && (db'.Some? ==> Keeps(db1, db'.value) && FilesComeFrom(db1, db'.value, files[1..], want, place, stamp))
    ensures db'.None? <==> SomeUnplaced(db, files, want, place)
    ensures db'.Some? ==> Keeps(db, db'.value) && FilesComeFrom(db, db'.value, files, want, place, stamp)
  {
    FirstCopied(db, a, files[0], fid, pid0, place, dest, stamp);
    hide CopyFile;
    hide NewFile;
    hide AudioHeldIn;
    hide DistinctIds;
    hide FreshFrom;
    hide Lacking;
    hide FilesComeFrom;
    hide SomeUnplaced;
    hide Keeps;
    UnplacedRest(db, db1, files, want, place);
    if db'.Some? {
      ComeFromFirst(db, db1, db'.value, files, want, place, stamp, (Files, [Int(fid)]));
      KeepsTwice(db, db1, db'.value);
    }
  }

  lemma KeepsTwice(db: Db, db1: Db, db2: Db)
    requires Keeps(db, db1) && Keeps(db1, db2)
    ensures Keeps(db, db2)
  {
  }

  /** What the copy of one file changes in the files. */
  lemma FirstCopied(db: Db, a: Answer, d: Row, fid: int, pid0: int, place: Value -> Option<Value>, dest: Value,
                    stamp: Value)
    requires FreshFrom(db, Files, fid) && place(Get(d, "path")) == Some(dest)
    ensures var db1, x := CopyFile(db, a, d, fid, pid0, dest, stamp), (Files, [Int(fid)]);
      && FreshFrom(db1, Files, fid + 1) && Keeps(db, db1) && NewFile(db, db1, x, d, place, stamp)
      && (forall y :: y in db1 && y.0 == Files ==> y in db || y == x)
      && (forall m :: AudioHeldIn(db1, m) <==> AudioHeldIn(db, m) || Get(d, "audio_md5") == m)
  {
    var db1, x := CopyFile(db, a, d, fid, pid0, dest, stamp), (Files, [Int(fid)]);
    OneFileAdded(db, a, d, fid, pid0, dest, stamp);
    hide CopyFile;
    hide FreshFrom;
    FileIsAsSent(d, fid, dest, stamp, db1);
    hide FileAsSent;
    FileCopyAudio(d, fid, dest, stamp);
    hide FileCopy;
    forall m ensures AudioHeldIn(db1, m) <==> AudioHeldIn(db, m) || Get(d, "audio_md5") == m {
      AudioOf(db, db1, FileCopy(d, fid, dest, stamp), fid, m);
    }
  }

  lemma FileCopyAudio(d: Row, fid: int, dest: Value, stamp: Value)
    ensures Get(FileCopy(d, fid, dest, stamp), "audio_md5") == Get(d, "audio_md5")
  {
  }

  /**
   A node's files are copied unless a wanted one has no place to go; and then exactly those wanted whose audio is
   not held come in, each under its place on the hub.
   */
  lemma {:induction false} CopiesExactly(db: Db, a: Answer, files: seq<Row>, want: set<Value>, fid: int, pid0: int,
                                         place: Value -> Option<Value>, stamp: Value)
    requires DistinctIds(files, "audio_md5") && FreshFrom(db, Files, fid)
    ensures var db' := CopyFiles(db, a, files, want, fid, pid0, place, stamp);
      && (db'.None? <==> SomeUnplaced(db, files, want, place))
      && (db'.Some? ==> Keeps(db, db'.value) && FilesComeFrom(db, db'.value, files, want, place, stamp))
    decreases |files|
  {
    hide CopyFile;
    hide FreshFrom;
    hide FilesComeFrom;
    hide Keeps;
    if files == [] {
      CopiesNothing(db, want, place, stamp);
    } else {
      var d := files[0];
      RestDistinct(files);
      AudioSame(db, Get(d, "audio_md5"));
      hide AudioHeldIn;
      hide HoldsAudio;
      if Get(d, "audio_md5") !in want || AudioHeldIn(db, Get(d, "audio_md5")) {
        CopiesExactly(db, a, files[1..], want, fid, pid0, place, stamp);
        UnplacedPassed(db, files, want, place);
        var db' := CopyFiles(db, a, files, want, fid, pid0, place, stamp);
        if db'.Some? {
          ComeFromRest(db, db'.value, files, want, place, stamp);
        }
      } else if place(Get(d, "path")).None? {
        assert Lacking(db, files, want, d);
      } else {
        var dest := place(Get(d, "path")).value;
        var db1, pid1 := CopyFile(db, a, d, fid, pid0, dest, stamp), pid0 + |PassagesOf(a, Get(d, "file_id"))|;
        FreshAfter(db, a, d, fid, pid0, dest, stamp);
        CopiesExactly(db1, a, files[1..], want, fid + 1, pid1, place, stamp);
        CopiesFirst(db, CopyFiles(db, a, files, want, fid, pid0, place, stamp), a, files, want, fid, pid0, place,
                    stamp, dest, db1);
      }
    }
  }

  lemma FreshAfter(db: Db, a: Answer, d: Row, fid: int, pid0: int, dest: Value, stamp: Value)
    requires FreshFrom(db, Files, fid)
    ensures FreshFrom(CopyFile(db, a, d, fid, pid0, dest, stamp), Files, fid + 1)
  {
    hide FreshFrom;
    OneFileAdded(db, a, d, fid, pid0, dest, stamp);
  }

  lemma RestDistinct(files: seq<Row>)
    requires files != [] && DistinctIds(files, "audio_md5")
    ensures DistinctIds(files[1..], "audio_md5")
  {
  }

  lemma UnplacedPassed(db: Db, files: seq<Row>, want: set<Value>, place: Value -> Option<Value>)
    requires files != [] && (Get(files[0], "audio_md5") !in want || AudioHeldIn(db, Get(files[0], "audio_md5")))
    ensures SomeUnplaced(db, files[1..], want, place) <==> SomeUnplaced(db, files, want, place)
  {
    forall d ensures Lacking(db, files[1..], want, d) <==> Lacking(db, files, want, d) {
      LackingPassed(db, files, want, d);
    }
    hide Lacking;
  }

  /** The audio of the files needed for some recordings. */
  ghost function NeededAudio(a: Answer, keys: set<Value>): set<Value>
  {
    set d | d in Rows(a, Files) && Needed(a, keys, d) :: Get(d, "audio_md5")
  }

  lemma WantedIsNeeded(a: Answer, keys: set<Value>)
    ensures WantedAudio(a, keys) == NeededAudio(a, keys)
  {
  }

  // ---------------------------------------------------------------------- turns

  /** The rows a finding's removal takes: its own; or a release, with its cover. */
  ghost predicate Takes(f: Finding, x: (Table, Key))
  {
    match f
    case Broken(_, _, _, _, rows) => x in rows
    case NoTracklist(v, _) => x == (Releases, [v]) || x == (CoverArt, [v])
  }

  ghost predicate TakenAlone(db: Db, db': Db, f: Finding)
  {
    forall x :: (x in db' <==> x in db && !Takes(f, x)) && (x in db' ==> db'[x] == db[x])
  }

  /** A repair from a node that brings its files: nothing if one has no place to go, and else rows and files. */
  ghost predicate RepairedWithFiles(db: Db, db': Db, f: Finding, cfg: Config, node: string)
    requires node in cfg.answers && f.Broken?
  {
    var a := cfg.answers[node];
    var want := NeededAudio(a, Values(Rows(a, Recordings), "mbid") * f.missing);
    exists db1 ::
      && Brings(db, db1, Repairing(f, a, db1))
      && if SomeUnplaced(db1, Rows(a, Files), want, path => cfg.place(node, path)) then db' == db
         else Keeps(db1, db') && FilesComeFrom(db1, db', Rows(a, Files), want, path => cfg.place(node, path), cfg.stamp)
  }

  /**
   One finding's turn. A removal that goes ahead takes the finding's rows and nothing else; a repair that goes
   ahead brings what it is to bring; and a finding undecided, left, held or refused by the database changes nothing.
   */
  ghost predicate Turn(db0: Db, db: Db, db': Db, f: Finding, cfg: Config)
  {
    && (RemovalGoes(db0, f, cfg) ==> TakenAlone(db, db', f))
    && (forall n :: RepairGoes(f, cfg, n, false) ==> Brings(db, db', Repairing(f, cfg.answers[n], db')))
    && (forall n :: RepairGoes(f, cfg, n, true) ==> RepairedWithFiles(db, db', f, cfg, n))
    && (!RemovalGoes(db0, f, cfg) && (forall n, w :: !RepairGoes(f, cfg, n, w)) ==> db' == db)
  }

  lemma RemovalTakes(db: Db, f: Finding)
    ensures TakenAlone(db, db - Deletes(f), f)
  {
  }

  lemma FilesTurn(db: Db, f: Finding, cfg: Config, node: string)
    requires ProperAnswers(cfg) && node in cfg.answers && f.Broken? && ParentOf(f.column) == Recordings
    ensures var a := cfg.answers[node];
      RepairedWithFiles(db, match AddFiles(RepairDb(db, f, a), a, node, Offered(f, a), cfg)
                            case None => db
                            case Some(db2) => db2, f, cfg, node)
  {
    var a := cfg.answers[node];
    var db1, keys := RepairDb(db, f, a), Offered(f, a);
    assert keys == Values(Rows(a, Recordings), "mbid") * f.missing;
    WantedIsNeeded(a, keys);
    RepairBrings(db, f, a);
    NextIdFresh(db1, Files);
    assert ProperAnswer(a);
    hide RepairDb;
    hide Offered;
    hide Brings;
    hide FilesComeFrom;
    hide SomeUnplaced;
    hide Repairing;
    CopiesExactly(db1, a, Rows(a, Files), WantedAudio(a, keys), NextId(db1, Files), NextId(db1, Passages),
                  path => cfg.place(node, path), cfg.stamp);
  }

  /** Every finding's turn is as decided. */
  lemma TurnIs(db0: Db, db: Db, f: Finding, cfg: Config)
    requires f in Find(db0) && ProperAnswers(cfg)
    ensures Turn(db0, db, StepDb(db, f, cfg), f, cfg)
  {
    hide Find;
    hide Brings;
    hide RepairedWithFiles;
    hide TakenAlone;
    hide RepairDb;
    hide Deletes;
    hide AddFiles;
    hide Offered;
    hide ProperAnswers;
    if f in cfg.failing {
      hide Supplies;
    } else {
      EffectIs(db0, f, cfg);
      hide RemovalGoes;
      var e := EffectOf(f, cfg);
      hide EffectOf;
      RemovalTakes(db, f);
      if e.RepairRows? {
        assert RepairGoes(f, cfg, e.node, e.withFiles);
        if e.withFiles {
          FilesTurn(db, f, cfg, e.node);
        } else {
          RepairBrings(db, f, cfg.answers[e.node]);
        }
      }
    }
  }

  /** Every turn of a run is as decided, over the catalogue that the turns before it left. */
  lemma EachTurn(db: Db, fs: seq<Finding>, cfg: Config, n: nat)
    requires FindingsOf(fs, db) && ProperAnswers(cfg) && n < |fs|
    ensures Turn(db, CorrectDb(db, fs[..n], cfg), CorrectDb(db, fs[..n + 1], cfg), fs[n], cfg)
  {
    hide Turn;
    hide StepDb;
    hide Find;
    assert fs[..n + 1][..n] == fs[..n];
    TurnIs(db, CorrectDb(db, fs[..n], cfg), fs[n], cfg);
  }

  /**
   A finding decided for removal, some of whose rows are still there at its turn, is removed exactly when it is of
   a kind that may go, the database does not refuse it, and every node that sends what it misses was among those
   seen when it was decided. Otherwise its turn changes nothing.
   */
  lemma RemovedIff(db: Db, fs: seq<Finding>, cfg: Config, n: nat)
    requires FindingsOf(fs, db) && ProperAnswers(cfg) && n < |fs|
    requires fs[n] in cfg.decisions && cfg.decisions[fs[n]].Remove?
    requires exists x :: x in CorrectDb(db, fs[..n], cfg) && Takes(fs[n], x)
    ensures var f, before, after := fs[n], CorrectDb(db, fs[..n], cfg), CorrectDb(db, fs[..n + 1], cfg);
      var seen := cfg.decisions[f].offersSeen;
      && ((forall x :: Takes(f, x) ==> x !in after)
          <==> KindMayGo(db, f) && f !in cfg.failing
               && forall m :: m in cfg.answers && Supplies(cfg.answers[m], f) ==> m in seen)
      && (!RemovalGoes(db, f, cfg) ==> after == before)
  {
    hide Find;
    hide KindMayGo;
    hide Supplies;
    hide Takes;
    hide CorrectDb;
    EachTurn(db, fs, cfg, n);
  }

  /** A row of the start is missing at the end only if a removal that went ahead took it. */
  lemma LostByDecision(db: Db, fs: seq<Finding>, cfg: Config, x: (Table, Key))
    requires WellKeyed(db) && FindingsOf(fs, db) && ProperAnswers(cfg) && x in db && x !in CorrectDb(db, fs, cfg)
    ensures exists f :: f in fs && RemovalGoes(db, f, cfg) && Takes(f, x)
  {
    hide Find;
    hide CorrectDb;
    CorrectSound(db, fs, cfg);
    hide WellKeyed;
    var f :| f in fs && Removes(f, cfg) && x in Deletes(f);
    EffectIs(db, f, cfg);
    hide EffectOf;
    hide RemovalGoes;
  }
}
