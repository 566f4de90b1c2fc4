/** The snapshot directory: what it stores, which states a restart can repair,
    and what database a repaired directory stands for. */
module SnapshotDir {
  import opened Bytes
  import opened WalFormat
  import opened WalTheory

  // ------------------------------------------------- snapshot identifiers

  /** A snapshot ID; `stamp` is the creation time that makes IDs distinct. */
  datatype Id = Id(term: nat, index: nat, stamp: nat)

  /** Order of snapshots: by term, then index, then ID. */
  predicate Less(a: Id, b: Id) {
    if a.term != b.term then a.term < b.term
    else if a.index != b.index then a.index < b.index
    else a.stamp < b.stamp
  }

  predicate IsNewest(s: set<Id>, x: Id) {
    x in s && forall y :: y in s && y != x ==> Less(y, x)
  }

  lemma {:induction false} NewestExists(s: set<Id>)
    requires s != {}
    ensures exists x :: IsNewest(s, x)
    decreases |s|
  {
    var a :| a in s;
    if s == {a} {
      assert IsNewest(s, a);
    } else {
      assert |s - {a}| < |s|;
      NewestExists(s - {a});
      var x :| IsNewest(s - {a}, x);
      assert forall y :: y in s ==> y == a || y in s - {a};
      if Less(a, x) { assert IsNewest(s, x); } else { assert IsNewest(s, a); }
    }
  }

  /** The most recent of a set of snapshots. */
  ghost function Newest(s: set<Id>): (x: Id)
    requires s != {}
    ensures IsNewest(s, x)
  {
    NewestExists(s);
    var x :| IsNewest(s, x);
    x
  }

  /** Snapshots listed from oldest to newest. */
  predicate Ascending(ids: seq<Id>) {
    forall i, j :: 0 <= i < j < |ids| ==> Less(ids[i], ids[j])
  }

  ghost predicate Lists(ids: seq<Id>, s: set<Id>) {
    Ascending(ids) && forall x :: x in ids <==> x in s
  }

  lemma ListEnds(ids: seq<Id>, s: set<Id>)
    requires Lists(ids, s)
    ensures s == {} <==> ids == []
    ensures ids != [] ==> Newest(s) == ids[|ids| - 1]
    ensures |ids| >= 2 <==> ids != [] && s - {ids[|ids| - 1]} != {}
    ensures |ids| >= 2 ==> Newest(s - {ids[|ids| - 1]}) == ids[|ids| - 2]
  {
    if s != {} { var x :| x in s; assert x in ids; }
    if ids != [] {
      var n := ids[|ids| - 1];
      assert IsNewest(s, n);
      var rest := s - {n};
      if rest != {} { var y :| y in rest; assert y in ids; }
      if |ids| >= 2 {
        assert ids[|ids| - 2] in rest;
        assert IsNewest(rest, ids[|ids| - 2]);
      }
    }
  }

  // ------------------------------------------------- replaying a WAL into a file

  predicate HasCommit(frs: seq<Frame>) {
    exists i :: 0 <= i < |frs| && frs[i].commit != 0
  }

  /** The committed pages of a WAL. */
  function DoneOf(frs: seq<Frame>): map<u32, Page> {
    ReplayFrames(Replay(map[], map[], 0), frs).done
  }

  lemma {:induction false} ReplaySize(r: Replay, r': Replay, frs: seq<Frame>)
    requires r.done == r'.done && r.pending == r'.pending
    ensures ReplayFrames(r, frs).done == ReplayFrames(r', frs).done
    ensures HasCommit(frs) ==> ReplayFrames(r, frs).size == ReplayFrames(r', frs).size
    ensures !HasCommit(frs) ==> ReplayFrames(r, frs).size == r.size && ReplayFrames(r, frs).done == r.done
    decreases |frs|
  {
    if frs != [] {
      var s, s' := ReplayFrame(r, frs[0]), ReplayFrame(r', frs[0]);
      if frs[0].commit == 0 {
        ReplaySize(s, s', frs[1..]);
        assert HasCommit(frs) <==> HasCommit(frs[1..]) by {
          if i :| 0 <= i < |frs| && frs[i].commit != 0 { assert frs[1..][i - 1].commit != 0; }
          if i :| 0 <= i < |frs[1..]| && frs[1..][i].commit != 0 { assert frs[i + 1].commit != 0; }
        }
      } else {
        assert s == s';
      }
    }
  }

  /** A database file part-way through a checkpoint: some of the committed
      pages have been written, and the file has some size. */
  function Partial(db: Db, frs: seq<Frame>, written: set<u32>, size: u32): Db {
    if HasCommit(frs)
    then Db(db.pages + (map p | p in DoneOf(frs) && p in written :: DoneOf(frs)[p]), size)
    else db
  }

  /** An interrupted checkpoint can be redone from whatever it left behind. */
  lemma PartialRedo(db: Db, frs: seq<Frame>, written: set<u32>, size: u32)
    ensures Checkpoint(Partial(db, frs, written, size), frs) == Checkpoint(db, frs)
  {
    if HasCommit(frs) {
      var d, sub := Partial(db, frs, written, size), map p | p in DoneOf(frs) && p in written :: DoneOf(frs)[p];
      var zero := Replay(map[], map[], 0);
      ReplaySize(Replay(map[], map[], db.size), zero, frs);
      ReplaySize(Replay(map[], map[], size), zero, frs);
      assert db.pages + sub + DoneOf(frs) == db.pages + DoneOf(frs);
    }
  }

  /** Replaying a WAL a second time changes nothing. */
  lemma ReplayTwice(db: Db, frs: seq<Frame>)
    ensures Checkpoint(Checkpoint(db, frs), frs) == Checkpoint(db, frs)
  {
    var once := Checkpoint(db, frs);
    var r, r' := Replay(map[], map[], db.size), Replay(map[], map[], once.size);
    ReplaySize(r, r', frs);
    ReplaySize(r', r, frs);
    var done, size := ReplayFrames(r, frs).done, ReplayFrames(r, frs).size;
    assert Truncate(Truncate(db.pages + done, size) + done, size) == Truncate(db.pages + done, size);
  }

  // ------------------------------------------------- the directory

  /** What a sink has been given: nothing, a database, a WAL, the path of a
      file to move in, or something unusable. `Moved` once it has left the sink. */
  datatype Data = Empty | Sqlite(db: Db) | WalData(frs: seq<Frame>) | PathTo(path: nat) | Junk | Moved

  /** A snapshot's `meta.json`: readable, or cut off by an interrupted rewrite. */
  datatype MetaFile = Meta(size: int) | Torn

  datatype TmpDir = TmpDir(hasMeta: bool, data: Data)

  /** The entries of the directory: `ID/`, `ID.tmp/`, `ID.db`, `ID.db-wal` and FULL_NEEDED. */
  datatype Dir = Dir(snaps: map<Id, MetaFile>, tmps: map<Id, TmpDir>,
                     dbs: map<Id, Db>, wals: map<Id, seq<Frame>>, full: bool)
  {
    predicate Mentions(id: Id) {
      id in snaps || id in tmps || id in dbs || id in wals
    }
  }

  /** The database that `base` becomes once the WAL of snapshot `n`, if any, is replayed. */
  function Settled(d: Dir, n: Id, base: Db): Db {
    if n in d.wals then Checkpoint(base, d.wals[n]) else base
  }

  /** A restart can repair this directory: every snapshot's metadata is
      readable, and the newest snapshot has its database file, or its
      predecessor still holds it. */
  ghost predicate Recoverable(d: Dir) {
    (forall x :: x in d.snaps ==> d.snaps[x].Meta? && x !in d.tmps) &&
    (d.snaps.Keys != {} ==>
       var n := Newest(d.snaps.Keys);
       var older := d.snaps.Keys - {n};
       if older == {} then n in d.dbs && n !in d.wals
       else n in d.dbs || (Newest(older) in d.dbs && Newest(older) !in d.wals))
  }

  datatype View = NoSnapshot | Snapshot(id: Id, db: Db)

  /** The snapshot a recoverable directory stands for. */
  ghost function ViewOf(d: Dir): View
    requires Recoverable(d)
  {
    if d.snaps.Keys == {} then NoSnapshot
    else
      var n := Newest(d.snaps.Keys);
      if n in d.dbs then Snapshot(n, Settled(d, n, d.dbs[n]))
      else Snapshot(n, Settled(d, n, d.dbs[Newest(d.snaps.Keys - {n})]))
  }

  /** Nothing is left to repair: the newest snapshot's file is its database. */
  ghost predicate Clean(d: Dir) {
    Recoverable(d) && d.tmps == map[] &&
    (d.snaps.Keys != {} ==> Newest(d.snaps.Keys) in d.dbs && Newest(d.snaps.Keys) !in d.wals)
  }

  /** A directory a crash may leave behind without harm, standing for `v`. */
  ghost predicate Safe(d: Dir, v: View) {
    Recoverable(d) && ViewOf(d) == v
  }
}
