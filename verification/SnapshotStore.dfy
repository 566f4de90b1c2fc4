/** The snapshot store as a sequence of single filesystem calls. Every call
    appends the directory it leaves behind to `trace`, so a crash after any
    call is some element of the trace; nothing else changes the directory. */
module SnapshotStore {
  import opened Bytes
  import opened WalFormat
  import opened WalTheory
  import opened SnapshotDir

  // ------------------------------------------------- filesystem calls

  /** The calls made on the directory: files of a temporary snapshot written or moved in, its data
      moved out to `ID.db` or `ID.db-wal`, its directory renamed or removed; database files
      renamed, written or removed; WALs, snapshots and the flag. */
  datatype Call =
    | WriteTmp(id: Id, t: TmpDir)
    | MoveDb(id: Id)
    | MoveWal(id: Id)
    | CommitTmp(id: Id)
    | RemoveTmpDir(id: Id)
    | RenameDb(id: Id, to: Id)
    | WriteDb(id: Id, db: Db)
    | RemoveDb(id: Id)
    | RemoveWal(id: Id)
    | WriteMeta(id: Id, m: MetaFile)
    | RemoveSnap(id: Id)
    | SetFull(b: bool)

  /** What a call does; one on a file that is not there does nothing. */
  function Effect(d: Dir, c: Call): Dir {
    match c
    case WriteTmp(id, t) => d.(tmps := d.tmps[id := t])
    case MoveDb(id) =>
      if id in d.tmps && d.tmps[id].data.Sqlite?
      then d.(dbs := d.dbs[id := d.tmps[id].data.db], tmps := d.tmps[id := d.tmps[id].(data := Moved)]) else d
    case MoveWal(id) =>
      if id in d.tmps && d.tmps[id].data.WalData?
      then d.(wals := d.wals[id := d.tmps[id].data.frs], tmps := d.tmps[id := d.tmps[id].(data := Moved)]) else d
    case CommitTmp(id) =>
      if id in d.tmps
      then d.(tmps := d.tmps - {id}, snaps := d.snaps[id := if d.tmps[id].hasMeta then Meta(0) else Torn]) else d
    case RemoveTmpDir(id) => d.(tmps := d.tmps - {id})
    case RenameDb(id, to) => if id in d.dbs then d.(dbs := (d.dbs - {id})[to := d.dbs[id]]) else d
    case WriteDb(id, db) => if id in d.dbs then d.(dbs := d.dbs[id := db]) else d
    case RemoveDb(id) => d.(dbs := d.dbs - {id})
    case RemoveWal(id) => d.(wals := d.wals - {id})
    case WriteMeta(id, m) => if id in d.snaps then d.(snaps := d.snaps[id := m]) else d
    case RemoveSnap(id) => d.(snaps := d.snaps - {id})
    case SetFull(b) => d.(full := b)
  }

  ghost predicate OneCall(d: Dir, e: Dir) { exists c :: e == Effect(d, c) }

  /** Where a list of calls, beginning at `d`, has led. */
  function End(d: Dir, t: seq<Dir>): Dir { if t == [] then d else t[|t| - 1] }

  /** The directories of `t` follow `d` and each other by one call each. */
  ghost predicate Traced(d: Dir, t: seq<Dir>)
    decreases |t|
  {
    t != [] ==> Traced(d, t[..|t| - 1]) && OneCall(End(d, t[..|t| - 1]), t[|t| - 1])
  }

  lemma OneCallMore(d: Dir, t: seq<Dir>, c: Call)
    requires Traced(d, t)
    ensures Traced(d, t + [Effect(End(d, t), c)])
  {
    var u := t + [Effect(End(d, t), c)];
    assert u[..|u| - 1] == t;
  }

  // ------------------------------------------------- what single calls preserve

  /** The view depends only on the snapshots and on their own files. */
  lemma SameView(d: Dir, d': Dir)
    requires Recoverable(d) && d'.snaps.Keys == d.snaps.Keys
    requires forall x :: x in d'.snaps ==> d'.snaps[x].Meta? && x !in d'.tmps
    requires forall x :: x in d.snaps ==>
               (x in d'.dbs <==> x in d.dbs) && (x in d.dbs ==> d'.dbs[x] == d.dbs[x]) &&
               (x in d'.wals <==> x in d.wals) && (x in d.wals ==> d'.wals[x] == d.wals[x])
    ensures Safe(d', ViewOf(d))
  {
  }

  /** Files and temporary directories of an ID that is no snapshot may come and go. */
  lemma ForeignFiles(d: Dir, d': Dir, id: Id)
    requires id !in d.snaps && d'.snaps == d.snaps && d'.tmps.Keys <= d.tmps.Keys + {id}
    requires d'.dbs - {id} == d.dbs - {id} && d'.wals - {id} == d.wals - {id}
    ensures Recoverable(d) ==> Safe(d', ViewOf(d))
  {
    if Recoverable(d) {
      forall x | x in d.snaps
        ensures (x in d'.dbs <==> x in d.dbs) && (x in d.dbs ==> d'.dbs[x] == d.dbs[x])
        ensures (x in d'.wals <==> x in d.wals) && (x in d.wals ==> d'.wals[x] == d.wals[x])
      {
        assert x in d'.dbs - {id} <==> x in d.dbs - {id};
        assert x in d'.wals - {id} <==> x in d.wals - {id};
        if x in d.dbs { assert (d'.dbs - {id})[x] == (d.dbs - {id})[x]; }
        if x in d.wals { assert (d'.wals - {id})[x] == (d.wals - {id})[x]; }
      }
      hide Recoverable, ViewOf, Store.Logged;
      assert forall x :: x in d'.snaps ==> d'.snaps[x].Meta? && x !in d'.tmps by { MetasOf(d); }
      SameView(d, d');
    }
  }

  lemma MetasOf(d: Dir)
    requires Recoverable(d)
    ensures forall x :: x in d.snaps ==> d.snaps[x].Meta? && x !in d.tmps
  {
  }

  /** A directory whose newest snapshot has its database and no WAL. */
  lemma SettledView(d: Dir, n: Id)
    requires forall x :: x in d.snaps ==> d.snaps[x].Meta? && x !in d.tmps
    requires IsNewest(d.snaps.Keys, n) && n in d.dbs && n !in d.wals
    ensures Safe(d, Snapshot(n, d.dbs[n]))
  {
  }

  /** A recoverable directory with newest snapshot `id`. */
  ghost predicate NewestOf(d: Dir, id: Id) {
    Recoverable(d) && d.snaps.Keys != {} && id == Newest(d.snaps.Keys)
  }

  /** What a repair needs to find. */
  ghost predicate Repairable(d: Dir) {
    Store.Readable(d) &&
    (d.snaps.Keys != {} ==>
       var n := Newest(d.snaps.Keys);
       n in d.dbs || (d.snaps.Keys - {n} != {} && Newest(d.snaps.Keys - {n}) in d.dbs))
  }

  lemma RecoverableIsRepairable(d: Dir)
    requires Recoverable(d)
    ensures Repairable(d)
  {
  }

  lemma TornBlocks(d: Dir, x: Id)
    requires x in d.snaps && d.snaps[x].Torn?
    ensures !Repairable(d)
  {
    hide Newest;
  }

  lemma SoleSnapshot(d: Dir, n: Id)
    requires Recoverable(d) && d.tmps == map[] && d.snaps.Keys != {} && n == Newest(d.snaps.Keys) &&
             d.snaps.Keys - {n} == {}
    ensures Clean(d) && n in d.dbs
  {
  }

  lemma NowClean(d: Dir, n: Id)
    requires Recoverable(d) && d.tmps == map[] && d.snaps.Keys != {} && n == Newest(d.snaps.Keys) &&
             n in d.dbs && n !in d.wals
    ensures Clean(d)
  {
  }

  /** The WAL of the newest snapshot may go once its file holds what the WAL leads to. */
  lemma SettledFile(d: Dir, d': Dir, id: Id)
    requires NewestOf(d, id) && id in d.dbs && id in d.wals
    requires d' == d.(dbs := d.dbs[id := Checkpoint(d.dbs[id], d.wals[id])], wals := d.wals - {id})
    ensures Safe(d', ViewOf(d))
  {
    SettledView(d', id);
  }

  lemma LessOneMore<K, V>(m: map<K, V>, gone: set<K>, k: K)
    ensures (m - gone) - {k} == m - (gone + {k})
  {
  }

  ghost predicate AllSafe(t: seq<Dir>, from: nat, v: View) {
    forall i :: from <= i < |t| ==> Safe(t[i], v)
  }

  /** Up to call `commit` the directory stands for `v`, from then on for `w`. */
  ghost predicate SwitchesAt(t: seq<Dir>, from: nat, commit: nat, v: View, w: View) {
    forall i :: from <= i < |t| ==> Safe(t[i], if i < commit then v else w)
  }

  class Store {
    var dir: Dir
    var outside: map<nat, Data>
    var trace: seq<Dir>
    ghost var start: Dir

    constructor (d: Dir, o: map<nat, Data>)
      ensures dir == start == d && outside == o && trace == [] && Logged()
    {
      dir, outside, trace, start := d, o, [], d;
    }

    /** The trace leads from where it was begun to the directory as it is now, call by call. */
    ghost predicate Logged()
      reads this`dir, this`trace, this`start
    {
      Traced(start, trace) && dir == End(start, trace)
    }

    /** Begins a new trace. */
    method Begin()
      modifies this`trace, this`start
      ensures trace == [] && start == dir && Logged()
    {
      trace, start := [], dir;
    }

    /** One filesystem call. */
    method Do(c: Call)
      requires Logged()
      modifies this`dir, this`trace
      ensures Logged() && dir == Effect(old(dir), c) && trace == old(trace) + [dir]
    {
      hide Effect, Traced;
      OneCallMore(start, trace, c);
      dir := Effect(dir, c);
      trace := trace + [dir];
    }

    /** Every snapshot's metadata can be read. */
    static ghost predicate Readable(d: Dir) {
      forall x :: x in d.snaps ==> d.snaps[x].Meta?
    }

    /** Lists the snapshots from oldest to newest; fails if any metadata is unreadable. */
    method GetSnapshots() returns (ids: seq<Id>, ok: bool)
      ensures ok <==> Readable(dir)
      ensures ok ==> Lists(ids, dir.snaps.Keys)
    {
      hide Store.Logged;
      ids := [];
      var todo := dir.snaps.Keys;
      while todo != {}
        invariant todo <= dir.snaps.Keys
        invariant Ascending(ids)
        invariant forall x :: x in ids <==> x in dir.snaps.Keys - todo
        invariant forall x :: x in dir.snaps.Keys - todo ==> dir.snaps[x].Meta?
        decreases todo
      {
        var x :| x in todo;
        if dir.snaps[x].Torn? { return [], false; }
        ids := InsertId(ids, x);
        todo := todo - {x};
      }
      ok := true;
    }

    /** Removes a temporary snapshot: its files first, its directory last. */
    method RemoveTmp(id: Id)
      requires id in dir.tmps && id !in dir.snaps
      requires Logged()
      modifies this`dir, this`trace
      ensures Logged()
      ensures dir == old(dir).(tmps := old(dir).tmps - {id}, dbs := old(dir).dbs - {id}, wals := old(dir).wals - {id})
      ensures old(trace) <= trace
      ensures old(Recoverable(dir)) ==> AllSafe(trace, |old(trace)|, old(ViewOf(dir))) && Safe(dir, old(ViewOf(dir)))
    {
      hide Recoverable, ViewOf, Store.Logged;
      ghost var d0 := dir;
      if id in dir.dbs {
        Do(RemoveDb(id));
        ForeignFiles(d0, dir, id);
      }
      assert dir.dbs == d0.dbs - {id};
      if id in dir.wals {
        Do(RemoveWal(id));
        ForeignFiles(d0, dir, id);
      }
      assert dir.wals == d0.wals - {id};
      Do(RemoveTmpDir(id));
      ForeignFiles(d0, dir, id);
    }

    /** Removes all temporary snapshots and every file that belongs to one. */
    method RemoveAllTmpSnapshotData()
      requires dir.tmps.Keys !! dir.snaps.Keys
      requires Logged()
      modifies this`dir, this`trace
      ensures Logged()
      ensures dir == old(dir).(tmps := map[], dbs := old(dir).dbs - old(dir).tmps.Keys,
                               wals := old(dir).wals - old(dir).tmps.Keys)
      ensures old(dir).tmps == map[] ==> dir == old(dir)
      ensures old(trace) <= trace
      ensures old(Recoverable(dir)) ==> AllSafe(trace, |old(trace)|, old(ViewOf(dir))) && Safe(dir, old(ViewOf(dir)))
    {
      hide Recoverable, ViewOf, Store.Logged;
      ghost var d0 := dir;
      var todo := dir.tmps.Keys;
      while todo != {}
        invariant todo <= d0.tmps.Keys
        invariant dir == d0.(tmps := d0.tmps - (d0.tmps.Keys - todo), dbs := d0.dbs - (d0.tmps.Keys - todo),
                             wals := d0.wals - (d0.tmps.Keys - todo))
        invariant Logged() && old(trace) <= trace
        invariant Recoverable(d0) ==> AllSafe(trace, |old(trace)|, ViewOf(d0)) && Safe(dir, ViewOf(d0))
        decreases todo
      {
        var id :| id in todo;
        ghost var gone := d0.tmps.Keys - todo;
        RemoveTmp(id);
        todo := todo - {id};
        assert gone + {id} == d0.tmps.Keys - todo;
        LessOneMore(d0.tmps, gone, id);
        LessOneMore(d0.dbs, gone, id);
        LessOneMore(d0.wals, gone, id);
      }
      assert d0.tmps - (d0.tmps.Keys - todo) == map[];
      if d0.tmps == map[] { assert dir.dbs == d0.dbs && dir.wals == d0.wals; }
    }

    /** Replays the WAL of snapshot `id`, if there is one, into its database file and removes
        it. The file may be interrupted part-way any number of times. */
    method CheckpointRemove(id: Id)
      requires id in dir.dbs
      requires Logged()
      modifies this`dir, this`trace
      ensures Logged()
      ensures dir == old(dir).(dbs := old(dir).dbs[id := Settled(old(dir), id, old(dir).dbs[id])],
              wals := old(dir).wals - {id})
      ensures id !in old(dir).wals ==> dir == old(dir)
      ensures old(trace) <= trace
      ensures old(NewestOf(dir, id)) ==> AllSafe(trace, |old(trace)|, old(ViewOf(dir))) && Safe(dir, old(ViewOf(dir)))
    {
      hide Store.Logged;
      if id !in dir.wals {
        assert dir.dbs == dir.dbs[id := dir.dbs[id]] && dir.wals == dir.wals - {id};
        return;
      }
      hide Recoverable, ViewOf, Store.Logged;
      ghost var d0 := dir;
      var db, frs := dir.dbs[id], dir.wals[id];
      CopyPages(id, db, frs);
      ReplayTwice(db, frs);
      Do(WriteDb(id, Checkpoint(db, frs)));
      if NewestOf(d0, id) { ReplacedFile(d0, dir, id); }
      Do(RemoveWal(id));
      if NewestOf(d0, id) { SettledFile(d0, dir, id); }
    }

    /** Copies some of the WAL's pages into the file, being interrupted any number of times. */
    method CopyPages(id: Id, db: Db, frs: seq<Frame>)
      requires id in dir.dbs && id in dir.wals && dir.dbs[id] == db && dir.wals[id] == frs
      requires Logged()
      modifies this`dir, this`trace
      ensures Logged()
      ensures id in dir.dbs && dir.(dbs := dir.dbs[id := db]) == old(dir) && old(trace) <= trace
      ensures old(NewestOf(dir, id)) ==> AllSafe(trace, |old(trace)|, old(ViewOf(dir)))
    {
      hide Recoverable, ViewOf, Store.Logged;
      ghost var d0 := dir;
      assert dir.dbs[id := db] == dir.dbs;
      var pauses: int := *;
      while 0 < pauses
        invariant id in dir.dbs && dir.(dbs := dir.dbs[id := db]) == d0
        invariant Logged() && old(trace) <= trace && (NewestOf(d0, id) ==> AllSafe(trace, |old(trace)|, ViewOf(d0)))
      {
        var written: set<u32>, size: u32 := *, *;
        PartialRedo(db, frs, written, size);
        Do(WriteDb(id, Partial(db, frs, written, size)));
        if NewestOf(d0, id) { ReplacedFile(d0, dir, id); }
        pauses := pauses - 1;
      }
    }

    /** Repairs whatever a crash left behind. It succeeds exactly if all metadata can be read and the
        newest snapshot, or its predecessor, has a database file. */
    method Check() returns (ok: bool)
      requires dir.tmps.Keys !! dir.snaps.Keys
      requires Logged()
      modifies this`dir, this`trace
      ensures Logged()
      ensures ok <==> old(Repairable(dir))
      ensures !ok ==> dir.snaps == old(dir).snaps && dir.tmps == map[] && !Repairable(dir)
      ensures old(trace) <= trace
      ensures old(Recoverable(dir)) ==> ok && Clean(dir) && ViewOf(dir) == old(ViewOf(dir)) &&
                                        AllSafe(trace, |old(trace)|, old(ViewOf(dir)))
      ensures dir.full == old(dir).full && dir.snaps.Keys == old(dir).snaps.Keys
      ensures old(Clean(dir)) ==> dir == old(dir)
    {
      hide Recoverable, ViewOf, Store.Logged;
      ghost var d0 := dir;
      assert Recoverable(d0) ==> Repairable(d0) by { if Recoverable(d0) { RecoverableIsRepairable(d0); } }
      RemoveAllTmpSnapshotData();
      var ids;
      ids, ok := GetSnapshots();
      if !ok { return; }
      ListEnds(ids, dir.snaps.Keys);
      if |ids| == 0 { assert Recoverable(dir) ==> Clean(dir); return; }
      var snap := ids[|ids| - 1];
      if |ids| == 1 {
        ok := snap in dir.dbs;
        if Recoverable(d0) { SoleSnapshot(dir, snap); }
      } else if snap in dir.dbs {
        CheckpointRemove(snap);
        if Recoverable(d0) { NowClean(dir, snap); }
      } else {
        ok := ids[|ids| - 2] in dir.dbs;
        if ok { Adopt(snap, ids[|ids| - 2]); }
      }
    }

    /** Metadata that was cut off blocks the store for good: no number of repairs succeeds. */
    method CheckAgain(times: nat, ghost torn: Id) returns (ok: bool)
      requires dir.tmps.Keys !! dir.snaps.Keys && torn in dir.snaps && dir.snaps[torn].Torn?
      requires Logged()
      modifies this`dir, this`trace
      ensures Logged()
      ensures !ok && dir.snaps == old(dir).snaps
    {
      hide Store.Logged;
      ok := false;
      for i := 0 to times
        invariant Logged() && !ok && dir.snaps == old(dir).snaps && dir.tmps.Keys !! dir.snaps.Keys
      {
        TornBlocks(dir, torn);
        ok := Check();
      }
    }

    /** Gives the newest snapshot its predecessor's database file, and replays its WAL into it. */
    method Adopt(snap: Id, prev: Id)
      requires dir.tmps == map[] && Readable(dir) && IsNewest(dir.snaps.Keys, snap) && snap !in dir.dbs
      requires dir.snaps.Keys - {snap} != {} && IsNewest(dir.snaps.Keys - {snap}, prev) && prev in dir.dbs
      requires Logged()
      modifies this`dir, this`trace
      ensures Logged()
      ensures dir.full == old(dir).full && dir.snaps.Keys == old(dir).snaps.Keys
      ensures old(trace) <= trace
      ensures old(Recoverable(dir)) ==>
                Clean(dir) && ViewOf(dir) == old(ViewOf(dir)) && AllSafe(trace, |old(trace)|, old(ViewOf(dir)))
    {
      hide Recoverable, ViewOf, Store.Logged;
      ghost var d1 := dir;
      Do(RenameDb(prev, snap));
      if Recoverable(d1) { Promoted(d1, dir, snap, prev); }
      ghost var d2 := dir;
      CheckpointRemove(snap);
      ghost var d3 := dir;
      Do(WriteMeta(snap, Meta(dir.dbs[snap].size)));
      assert dir.snaps.Keys == d3.snaps.Keys;
      if Recoverable(d1) {
        SameView(d3, dir);
        NowClean(dir, snap);
      }
    }

    /** Removes every snapshot but the newest, directory first. */
    method Reap()
      requires Clean(dir)
      requires Logged()
      modifies this`dir, this`trace
      ensures Logged()
      ensures Clean(dir) && ViewOf(dir) == old(ViewOf(dir)) && dir.full == old(dir).full
      ensures old(dir).snaps.Keys != {} ==> dir.snaps.Keys == {Newest(old(dir).snaps.Keys)}
      ensures old(trace) <= trace && AllSafe(trace, |old(trace)|, old(ViewOf(dir)))
    {
      hide Recoverable, ViewOf, Store.Logged;
      MetasOf(dir);
      var ids, ok := GetSnapshots();
      ListEnds(ids, dir.snaps.Keys);
      if |ids| <= 1 {
        assert ids != [] ==> dir.snaps.Keys == {ids[0]};
        return;
      }
      var n := ids[|ids| - 1];
      SettledView(dir, n);
      RemoveOlder(ids, n);
      SettledView(dir, n);
    }

    /** Removes every listed snapshot but the last, the oldest first. */
    method RemoveOlder(ids: seq<Id>, ghost n: Id)
      requires dir.tmps == map[] && forall x :: x in dir.snaps ==> dir.snaps[x].Meta?
      requires Lists(ids, dir.snaps.Keys) && ids != [] && n == ids[|ids| - 1]
      requires n in dir.dbs && n !in dir.wals
      requires Logged()
      modifies this`dir, this`trace
      ensures Logged()
      ensures dir.tmps == map[] && dir.full == old(dir).full && dir.snaps.Keys == {n} && dir.snaps[n].Meta?
      ensures n in dir.dbs && dir.dbs[n] == old(dir).dbs[n] && n !in dir.wals
      ensures old(trace) <= trace && AllSafe(trace, |old(trace)|, Snapshot(n, old(dir).dbs[n]))
    {
      hide Recoverable, ViewOf, Store.Logged;
      for i := 0 to |ids| - 1
        invariant dir.tmps == map[] && dir.full == old(dir).full && dir.snaps.Keys <= old(dir).snaps.Keys
        invariant forall x :: x in dir.snaps ==> dir.snaps[x].Meta?
        invariant n in dir.snaps && n in dir.dbs && dir.dbs[n] == old(dir).dbs[n] && n !in dir.wals
        invariant forall j :: 0 <= j < i ==> ids[j] !in dir.snaps
        invariant Logged() && old(trace) <= trace
        invariant AllSafe(trace, |old(trace)|, Snapshot(n, old(dir).dbs[n]))
      {
        RemoveAllPrefix(ids[i], n);
      }
      assert forall x :: x in dir.snaps ==> x in ids && x == n;
      assert dir.snaps.Keys == {n};
    }

    /** Removes the snapshot `x` and its files, one call each. */
    method RemoveAllPrefix(x: Id, ghost n: Id)
      requires dir.tmps == map[] && forall y :: y in dir.snaps ==> dir.snaps[y].Meta?
      requires x != n && IsNewest(dir.snaps.Keys, n) && n in dir.dbs && n !in dir.wals
      requires Logged()
      modifies this`dir, this`trace
      ensures Logged()
      ensures dir == old(dir).(snaps := old(dir).snaps - {x}, dbs := old(dir).dbs - {x}, wals := old(dir).wals - {x})
      ensures old(trace) <= trace && AllSafe(trace, |old(trace)|, Snapshot(n, old(dir).dbs[n]))
    {
      hide Recoverable, ViewOf, Store.Logged;
      ghost var d0 := dir;
      if x in dir.snaps {
        Do(RemoveSnap(x));
        SettledView(dir, n);
      }
      assert dir.snaps == d0.snaps - {x};
      if x in dir.dbs {
        Do(RemoveDb(x));
        SettledView(dir, n);
      }
      assert dir.dbs == d0.dbs - {x};
      if x in dir.wals {
        Do(RemoveWal(x));
        SettledView(dir, n);
      }
      assert dir.wals == d0.wals - {x};
    }
  }

  method InsertId(ids: seq<Id>, x: Id) returns (r: seq<Id>)
    requires Ascending(ids) && x !in ids
    ensures Ascending(r) && forall y :: y in r <==> y == x || y in ids
  {
    var k := |ids|;
    while k > 0 && Less(x, ids[k - 1])
      invariant 0 <= k <= |ids|
      invariant forall i :: k <= i < |ids| ==> Less(x, ids[i])
    {
      hide Store.Logged;
      k := k - 1;
    }
    r := ids[..k] + [x] + ids[k..];
    PlacedAt(ids, k, x);
  }

  lemma PlacedAt(ids: seq<Id>, k: nat, x: Id)
    requires Ascending(ids) && k <= |ids|
    requires forall i :: k <= i < |ids| ==> Less(x, ids[i])
    requires k > 0 ==> Less(ids[k - 1], x)
    ensures Ascending(ids[..k] + [x] + ids[k..])
    ensures forall y :: y in ids[..k] + [x] + ids[k..] <==> y == x || y in ids
  {
    var r := ids[..k] + [x] + ids[k..];
    forall i, j | 0 <= i < j < |r| ensures Less(r[i], r[j]) {
      assert r[i] == if i < k then ids[i] else if i == k then x else ids[i - 1];
      assert r[j] == if j < k then ids[j] else if j == k then x else ids[j - 1];
      if i < k - 1 { assert Less(ids[i], ids[k - 1]); }
    }
    assert ids == ids[..k] + ids[k..];
  }

  /** Replacing the newest snapshot's file by one that its WAL brings to the same state. */
  lemma ReplacedFile(d: Dir, d': Dir, id: Id)
    requires NewestOf(d, id) && id in d.dbs && id in d.wals
    requires id in d'.dbs && d' == d.(dbs := d.dbs[id := d'.dbs[id]])
    requires Checkpoint(d'.dbs[id], d.wals[id]) == Checkpoint(d.dbs[id], d.wals[id])
    ensures Safe(d', ViewOf(d))
  {
  }

  /** Handing the previous snapshot's database file to the newest snapshot. */
  lemma Promoted(d: Dir, d': Dir, n: Id, prev: Id)
    requires Recoverable(d) && d.snaps.Keys != {} && n == Newest(d.snaps.Keys) && n !in d.dbs
    requires d.snaps.Keys - {n} != {} && prev == Newest(d.snaps.Keys - {n}) && prev in d.dbs
    requires d' == d.(dbs := (d.dbs - {prev})[n := d.dbs[prev]])
    ensures Safe(d', ViewOf(d)) && d'.snaps.Keys == d.snaps.Keys
  {
  }
}
