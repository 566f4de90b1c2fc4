/** Writing a new snapshot into the store: the ordered calls of a sink, and
    what survives a crash at any of them. */
module SnapshotSink {
  import opened WalTheory
  import opened SnapshotDir
  import opened SnapshotStore

  /** The data a sink ends up with once a named file has been moved in. */
  function Incoming(raw: Data, outside: map<nat, Data>): Data {
    if raw.PathTo? && raw.path in outside then outside[raw.path] else raw
  }

  /** Which data finalizes as snapshot `id` in a store that stands for `v`. */
  predicate Acceptable(v: View, id: Id, raw: Data, data: Data) {
    (v.NoSnapshot? ==> raw.Sqlite? && data == raw) &&
    (v.Snapshot? ==> Less(v.id, id)) &&
    ((raw.Empty? && data == raw) || data.Sqlite? || data.WalData?)
  }

  /** The database the new snapshot holds: the data itself, the old database
      with the new WAL replayed, or the old database unchanged. */
  function NewDb(v: View, id: Id, raw: Data, data: Data): Db
    requires Acceptable(v, id, raw, data)
  {
    match data
    case Sqlite(db) => db
    case WalData(frs) => Checkpoint(v.db, frs)
    case _ => v.db
  }

  /** The directory with the snapshot's data in place but the snapshot itself still temporary. */
  function Placed(base: Dir, id: Id, data: Data): Dir {
    match data
    case Sqlite(db) => base.(dbs := base.dbs[id := db])
    case WalData(frs) => base.(wals := base.wals[id := frs])
    case _ => base
  }

  lemma NothingPlaced(base: Dir, id: Id)
    ensures Placed(base, id, Empty) == base
  {
  }

  lemma PlacedView(base: Dir, d: Dir, id: Id, data: Data)
    requires Clean(base) && !base.Mentions(id)
    requires d.tmps.Keys <= {id} && d == Placed(base, id, data).(tmps := d.tmps)
    ensures Safe(d, ViewOf(base))
  {
    assert d.dbs - {id} == base.dbs - {id} && d.wals - {id} == base.wals - {id};
    ForeignFiles(base, d, id);
  }

  /** The rename of the temporary directory is the commit point: from that call
      on the directory stands for the new snapshot. */
  lemma CommitPoint(base: Dir, d: Dir, id: Id, raw: Data, data: Data)
    requires Clean(base) && !base.Mentions(id) && Acceptable(ViewOf(base), id, raw, data)
    requires raw.Empty? ==> data == raw
    requires d == Placed(base, id, data).(snaps := base.snaps[id := Meta(0)])
    ensures Safe(d, Snapshot(id, NewDb(ViewOf(base), id, raw, data)))
    ensures Newest(d.snaps.Keys) == id && d.snaps.Keys - {id} == base.snaps.Keys
    ensures id in d.dbs <==> !(id in d.wals || raw.Empty?)
    ensures id !in d.dbs ==>
              base.snaps.Keys != {} && Newest(base.snaps.Keys) in d.dbs && Newest(base.snaps.Keys) !in d.wals
  {
    assert d.snaps.Keys == base.snaps.Keys + {id};
    assert d.snaps.Keys - {id} == base.snaps.Keys;
    assert IsNewest(d.snaps.Keys, id);
    assert id !in base.dbs && id !in base.wals;
  }

  class Sink {
    const str: Store
    const id: Id
    var isOpen: bool

    constructor (s: Store, i: Id)
      ensures str == s && id == i && !isOpen
    {
      str, id, isOpen := s, i, false;
    }

    /** The store as it was before this sink was opened. */
    ghost function Base(): Dir
      reads str
    {
      str.dir.(tmps := map[])
    }

    ghost predicate Valid()
      reads this, str
    {
      isOpen ==> str.dir.tmps.Keys == {id} && Clean(Base()) && !Base().Mentions(id)
    }

    /** Makes the temporary directory and the data file. */
    method Open()
      requires if isOpen then Valid() else Clean(str.dir) && !str.dir.Mentions(id)
      requires str.Logged()
      modifies this`isOpen, str`dir, str`trace
      ensures str.Logged()
      ensures isOpen && Valid()
      ensures old(isOpen) ==> str.dir == old(str.dir) && str.trace == old(str.trace)
      ensures !old(isOpen) ==> str.dir == old(str.dir).(tmps := map[id := TmpDir(false, Empty)])
      ensures old(str.trace) <= str.trace
      ensures AllSafe(str.trace, |old(str.trace)|, ViewOf(Base()))
    {
      hide Recoverable, ViewOf, Store.Logged;
      if isOpen { return; }
      isOpen := true;
      ghost var base := str.dir;
      str.Do(WriteTmp(id, TmpDir(false, Moved)));
      PlacedView(base, str.dir, id, Empty);
      str.Do(WriteTmp(id, TmpDir(false, Empty)));
      PlacedView(base, str.dir, id, Empty);
      assert Base() == base;
    }

    /** Replaces what has been written so far; a write cut short leaves `Junk`. */
    method Write(p: Data)
      requires isOpen && Valid()
      requires str.Logged()
      modifies str`dir, str`trace
      ensures str.Logged()
      ensures Valid() && str.dir == old(str.dir).(tmps := map[id := old(str.dir).tmps[id].(data := p)])
      ensures old(str.trace) <= str.trace
      ensures AllSafe(str.trace, |old(str.trace)|, ViewOf(Base()))
    {
      hide Recoverable, ViewOf, Store.Logged;
      ghost var base := Base();
      str.Do(WriteTmp(id, str.dir.tmps[id].(data := p)));
      assert str.dir.tmps == map[id := old(str.dir).tmps[id].(data := p)];
      assert Base() == base;
      PlacedView(base, str.dir, id, Empty);
    }

    /** Gives the snapshot up, leaving the store as it was. */
    method Cancel()
      requires Valid()
      requires str.Logged()
      modifies this`isOpen, str`dir, str`trace
      ensures str.Logged()
      ensures !isOpen
      ensures !old(isOpen) ==> str.dir == old(str.dir) && str.trace == old(str.trace)
      ensures old(isOpen) ==> str.dir == old(Base()) && AllSafe(str.trace, |old(str.trace)|, ViewOf(str.dir))
      ensures old(str.trace) <= str.trace
    {
      hide Store.Logged;
      if !isOpen { return; }
      isOpen := false;
      Discard(Base(), Empty);
    }

    method Discard(ghost base: Dir, ghost data: Data)
      requires Clean(base) && !base.Mentions(id) && str.dir.tmps.Keys == {id}
      requires str.dir == Placed(base, id, data).(tmps := str.dir.tmps)
      requires str.Logged()
      modifies str`dir, str`trace
      ensures str.Logged()
      ensures str.dir == base
      ensures old(str.trace) <= str.trace && AllSafe(str.trace, |old(str.trace)|, ViewOf(base))
    {
      hide Recoverable, ViewOf, Store.Logged;
      PlacedView(base, str.dir, id, data);
      str.RemoveAllTmpSnapshotData();
      assert str.dir.dbs == base.dbs && str.dir.wals == base.wals;
    }

    /** Finalizes the snapshot. `commit` is the call from which the new snapshot counts. */
    method Close() returns (ok: bool, ghost commit: nat)
      requires Valid()
      requires str.Logged()
      modifies this`isOpen, str`dir, str`trace, str`outside
      ensures str.Logged()
      ensures !isOpen && old(str.trace) <= str.trace
      ensures !old(isOpen) ==> ok && str.dir == old(str.dir) && str.trace == old(str.trace)
      ensures old(isOpen) ==>
                var v, raw := old(ViewOf(Base())), old(str.dir).tmps[id].data;
                var data := Incoming(raw, old(str.outside));
                ok == Acceptable(v, id, raw, data) &&
                (ok ==> SwitchesAt(str.trace, |old(str.trace)|, commit, v, Snapshot(id, NewDb(v, id, raw, data))) &&
                        Safe(str.dir, Snapshot(id, NewDb(v, id, raw, data))) &&
                        Clean(str.dir) && str.dir.snaps.Keys == {id} && !str.dir.full) &&
                (!ok ==> AllSafe(str.trace, |old(str.trace)|, v) && str.dir == old(Base()))
    {
      assert isOpen ==> Recoverable(Base());
      hide Recoverable, ViewOf, Clean, Dir.Mentions, Placed, NewDb, Store.Logged;
      commit := 0;
      if !isOpen { return true, 0; }
      isOpen := false;
      ghost var base, t0 := Base(), |str.trace|;
      ghost var v := ViewOf(base);
      var raw := str.dir.tmps[id].data;
      ghost var data := Incoming(raw, str.outside);
      ok := Place(base);
      if !ok { return; }
      commit := |str.trace|;
      Commit(base, raw, data);
    }

    /** The rename at the commit point and everything after it. */
    method Commit(ghost base: Dir, raw: Data, ghost data: Data)
      requires Clean(base) && !base.Mentions(id) && Acceptable(ViewOf(base), id, raw, data)
      requires raw.Empty? ==> data == raw
      requires str.dir == Placed(base, id, data).(tmps := str.dir.tmps)
      requires str.dir.tmps.Keys == {id} && str.dir.tmps[id].hasMeta
      requires str.Logged()
      modifies str`dir, str`trace
      ensures str.Logged()
      ensures Clean(str.dir) && str.dir.snaps.Keys == {id} && !str.dir.full
      ensures Safe(str.dir, Snapshot(id, NewDb(ViewOf(base), id, raw, data)))
      ensures old(str.trace) < str.trace
      ensures AllSafe(str.trace, |old(str.trace)|, Snapshot(id, NewDb(ViewOf(base), id, raw, data)))
    {
      hide Recoverable, ViewOf, Dir.Mentions, Store.Logged;
      str.Do(CommitTmp(id));
      assert str.dir == Placed(base, id, data).(snaps := base.snaps[id := Meta(0)]);
      CommitPoint(base, str.dir, id, raw, data);
      Finish(base, Snapshot(id, NewDb(ViewOf(base), id, raw, data)), raw.Empty?);
    }

    /** Everything after the commit point. */
    method Finish(ghost base: Dir, ghost w: View, empty: bool)
      requires Safe(str.dir, w) && str.dir.tmps == map[]
      requires str.dir.snaps.Keys != {} && Newest(str.dir.snaps.Keys) == id &&
               str.dir.snaps.Keys - {id} == base.snaps.Keys
      requires id in str.dir.dbs <==> !(id in str.dir.wals || empty)
      requires id !in str.dir.dbs ==>
                 base.snaps.Keys != {} && Newest(base.snaps.Keys) in str.dir.dbs &&
                   Newest(base.snaps.Keys) !in str.dir.wals
      requires str.Logged()
      modifies str`dir, str`trace
      ensures str.Logged()
      ensures Safe(str.dir, w) && Clean(str.dir) && str.dir.snaps.Keys == {id} && !str.dir.full
      ensures old(str.trace) <= str.trace && AllSafe(str.trace, |old(str.trace)|, w)
    {
      hide Recoverable, ViewOf, Store.Logged;
      Promote(base, w, empty);
      ghost var d := str.dir;
      MetasOf(d);
      SettledNow(d, id);
      assert w == Snapshot(id, d.dbs[id]);
      str.Do(WriteMeta(id, Meta(str.dir.dbs[id].size)));
      assert str.dir.snaps.Keys == d.snaps.Keys;
      SettledNow(str.dir, id);
      str.Do(SetFull(false));
      SettledNow(str.dir, id);
      str.Reap();
    }

    /** Everything before the commit point: metadata, sanity checks, and moving the data into place. */
    method Place(ghost base: Dir) returns (ok: bool)
      requires str.dir.tmps.Keys == {id} && base == Base() && Clean(base) && !base.Mentions(id)
      requires str.Logged()
      modifies str`dir, str`trace, str`outside
      ensures str.Logged()
      ensures var v, raw := ViewOf(base), old(str.dir).tmps[id].data;
              ok == Acceptable(v, id, raw, Incoming(raw, old(str.outside)))
      ensures old(str.trace) <= str.trace && AllSafe(str.trace, |old(str.trace)|, ViewOf(base))
      ensures !ok ==> str.dir == base
      ensures ok ==> str.dir == Placed(base, id, Incoming(old(str.dir).tmps[id].data,
              old(str.outside))).(tmps := str.dir.tmps) &&
                     str.dir.tmps.Keys == {id} && str.dir.tmps[id].hasMeta
    {
      hide Recoverable, ViewOf, Placed, Clean, Dir.Mentions, Store.Logged;
      var raw := str.dir.tmps[id].data;
      str.Do(WriteTmp(id, TmpDir(true, raw)));
      assert str.dir.tmps == map[id := TmpDir(true, raw)];
      NothingPlaced(base, id);
      PlacedView(base, str.dir, id, Empty);
      ok := Fresh(base, raw);
      if !ok { Discard(base, Empty); return; }
      if raw.Empty? { return; }
      var data := Receive(base, raw);
      ok := MoveData(base, data);
    }

    /** Moves the file that the data names, if it does, into the temporary directory. */
    method Receive(ghost base: Dir, raw: Data) returns (data: Data)
      requires Clean(base) && !base.Mentions(id)
      requires str.dir == base.(tmps := map[id := TmpDir(true, raw)])
      requires str.Logged()
      modifies str`dir, str`trace, str`outside
      ensures str.Logged()
      ensures data == Incoming(raw, old(str.outside)) && str.dir == base.(tmps := map[id := TmpDir(true, data)])
      ensures str.outside == if raw.PathTo? then old(str.outside) - {raw.path} else old(str.outside)
      ensures old(str.trace) <= str.trace && AllSafe(str.trace, |old(str.trace)|, ViewOf(base))
    {
      hide Recoverable, ViewOf, Clean, Dir.Mentions, Store.Logged;
      data := raw;
      if raw.PathTo? && raw.path in str.outside {
        data := str.outside[raw.path];
        str.outside := str.outside - {raw.path};
        str.Do(WriteTmp(id, TmpDir(true, data)));
        assert str.dir.tmps == map[id := TmpDir(true, data)];
        NothingPlaced(base, id);
        PlacedView(base, str.dir, id, Empty);
      }
    }

    /** Moves a database or a WAL to its place beside the temporary directory; refuses anything else. */
    method MoveData(ghost base: Dir, data: Data) returns (ok: bool)
      requires Clean(base) && !base.Mentions(id)
      requires str.dir == base.(tmps := map[id := TmpDir(true, data)])
      requires str.Logged()
      modifies str`dir, str`trace
      ensures str.Logged()
      ensures ok == (data.Sqlite? || data.WalData?)
      ensures old(str.trace) <= str.trace && AllSafe(str.trace, |old(str.trace)|, ViewOf(base))
      ensures !ok ==> str.dir == base
      ensures ok ==> str.dir == Placed(base, id, data).(tmps := str.dir.tmps) &&
                     str.dir.tmps.Keys == {id} && str.dir.tmps[id].hasMeta
    {
      hide Recoverable, ViewOf, Clean, Dir.Mentions, Store.Logged;
      match data {
        case Sqlite(db) =>
          str.Do(MoveDb(id));
          PlacedView(base, str.dir, id, data);
          ok := true;
        case WalData(frs) =>
          str.Do(MoveWal(id));
          PlacedView(base, str.dir, id, data);
          ok := true;
        case _ =>
          Discard(base, Empty);
          ok := false;
      }
    }

    /** The new snapshot must be later than the newest one; a first snapshot must be a database. */
    method Fresh(ghost base: Dir, raw: Data) returns (ok: bool)
      requires Clean(base) && str.dir.snaps == base.snaps
      ensures ok == ((ViewOf(base).NoSnapshot? ==> raw.Sqlite?) &&
              (ViewOf(base).Snapshot? ==> Less(ViewOf(base).id, id)))
    {
      var ids, readable := str.GetSnapshots();
      ListEnds(ids, base.snaps.Keys);
      if |ids| == 0 { return raw.Sqlite?; }
      return Less(ids[|ids| - 1], id);
    }

    /** After the commit point: hand over the previous database and replay the WAL into it, if there is nothing
        newer. */
    method Promote(ghost base: Dir, ghost w: View, empty: bool)
      requires Safe(str.dir, w) && str.dir.tmps == map[]
      requires str.dir.snaps.Keys != {} && Newest(str.dir.snaps.Keys) == id &&
               str.dir.snaps.Keys - {id} == base.snaps.Keys
      requires id in str.dir.dbs <==> !(id in str.dir.wals || empty)
      requires id !in str.dir.dbs ==>
                 base.snaps.Keys != {} && Newest(base.snaps.Keys) in str.dir.dbs &&
                   Newest(base.snaps.Keys) !in str.dir.wals
      requires str.Logged()
      modifies str`dir, str`trace
      ensures str.Logged()
      ensures Safe(str.dir, w) && str.dir.snaps == old(str.dir).snaps && str.dir.tmps == map[]
      ensures id in str.dir.dbs && id !in str.dir.wals
      ensures old(str.trace) <= str.trace && AllSafe(str.trace, |old(str.trace)|, w)
    {
      hide Recoverable, ViewOf, Store.Logged;
      ghost var d0 := str.dir;
      var ids, readable := str.GetSnapshots();
      assert Store.Readable(str.dir) by { MetasOf(str.dir); }
      ListEnds(ids, str.dir.snaps.Keys);
      if |ids| >= 2 && (id in str.dir.wals || empty) {
        var prev := ids[|ids| - 2];
        str.Do(RenameDb(prev, id));
        Promoted(d0, str.dir, id, prev);
        str.CheckpointRemove(id);
      }
    }
  }

  /** A settled directory is clean, whatever its metadata sizes and flags. */
  lemma SettledNow(d: Dir, n: Id)
    requires d.tmps == map[] && forall x :: x in d.snaps ==> d.snaps[x].Meta?
    requires IsNewest(d.snaps.Keys, n) && n in d.dbs && n !in d.wals
    ensures Clean(d) && Safe(d, Snapshot(n, d.dbs[n])) && Newest(d.snaps.Keys) == n
  {
    SettledView(d, n);
  }
}
