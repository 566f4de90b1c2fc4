/** The node's state machine as Raft drives it, over a real snapshot directory: every callback
    does to the directory what the chain's step says, one filesystem call at a time. */
module SnapshotFsm {
  import opened WalFormat
  import opened WalTheory
  import opened Options
  import opened SnapshotChain
  import D = SnapshotDir
  import T = SnapshotStore
  import K = SnapshotSink

  /** The file to which a snapshot's WAL is compacted, and which the snapshot store moves in. */
  const SCRATCH: nat := 0

  /** What persisting a snapshot writes into the sink: a database, the name of a WAL, or nothing. */
  function RawOf(f: Flight): D.Data {
    match f
    case FullCopy(db) => D.Sqlite(db)
    case Delta(_) => D.PathTo(SCRATCH)
    case _ => D.Empty
  }

  function DataOf(f: Flight): D.Data {
    match f
    case FullCopy(db) => D.Sqlite(db)
    case Delta(frs) => D.WalData(frs)
    case _ => D.Empty
  }

  function StoredAs(v: D.View): Option<Db> { if v.NoSnapshot? then None else Some(v.db) }

  predicate LaterThan(v: D.View, id: D.Id) { v.Snapshot? ==> D.Less(v.id, id) }

  /** A snapshot in flight is always acceptable to a store whose newest snapshot
      is older, and finalizing it leaves the store with exactly what the chain expects. */
  lemma FinalizesAsExpected(n: Node, v: D.View, id: D.Id)
    requires Inv(n) && n.flight != Landed && n.stored == StoredAs(v) && LaterThan(v, id)
    ensures K.Acceptable(v, id, RawOf(n.flight), DataOf(n.flight)) &&
            Landing(n) == Some(K.NewDb(v, id, RawOf(n.flight), DataOf(n.flight)))
  {
  }

  // ------------------------------------------------- the directory behind a node

  /** What the flag and open temporary directories leave alone. */
  lemma SameBase(base: D.Dir, d: D.Dir, tmps: map<D.Id, D.TmpDir>, id: D.Id, full: bool)
    requires D.Clean(base) && !base.Mentions(id) && tmps.Keys <= {id}
    requires d == base.(tmps := tmps, full := full)
    ensures D.Clean(base.(full := full)) && D.ViewOf(base.(full := full)) == D.ViewOf(base)
    ensures D.Recoverable(d) && D.ViewOf(d) == D.ViewOf(base) && !base.(full := full).Mentions(id)
  {
    T.SameView(base, base.(full := full));
    K.PlacedView(base.(full := full), d, id, D.Empty);
  }

  lemma FlagOnly(d: D.Dir, full: bool)
    requires D.Clean(d)
    ensures D.Clean(d.(full := full)) && D.ViewOf(d.(full := full)) == D.ViewOf(d)
  {
    T.SameView(d, d.(full := full));
  }

  lemma NewestIsOlder(d: D.Dir, id: D.Id)
    requires D.Clean(d) && forall x :: x in d.snaps ==> D.Less(x, id)
    ensures LaterThan(D.ViewOf(d), id)
  {
  }

  lemma StoredIff(d: D.Dir)
    requires D.Clean(d)
    ensures StoredAs(D.ViewOf(d)).None? <==> d.snaps == map[]
  {
    assert d.snaps.Keys == {} <==> d.snaps == map[];
  }

  /** Directories a crash may leave: they can be repaired, and hold `a` or `b`. */
  ghost predicate Leaves(t: seq<D.Dir>, from: nat, a: Option<Db>, b: Option<Db>) {
    forall i :: from <= i < |t| ==>
      D.Recoverable(t[i]) && (StoredAs(D.ViewOf(t[i])) == a || StoredAs(D.ViewOf(t[i])) == b)
  }

  lemma SafeLeaves(t: seq<D.Dir>, from: nat, v: D.View, b: Option<Db>)
    requires T.AllSafe(t, from, v)
    ensures Leaves(t, from, StoredAs(v), b)
  {
    hide D.Recoverable, D.ViewOf;
  }

  /** Calls that leave the same snapshot, followed by more of them. */
  lemma LeavesLonger(t: seq<D.Dir>, u: seq<D.Dir>, from: nat, a: Option<Db>)
    requires from <= |t| && t <= u && Leaves(t, from, a, a) && Leaves(u, |t|, a, a)
    ensures Leaves(u, from, a, a)
  {
    LeavesTwo(t, u, from, a, a);
  }

  lemma LeavesTwo(t: seq<D.Dir>, u: seq<D.Dir>, from: nat, a: Option<Db>, b: Option<Db>)
    requires from <= |t| && t <= u && Leaves(t, from, a, a) && Leaves(u, |t|, a, b)
    ensures Leaves(u, from, a, b)
  {
    hide D.Recoverable, D.ViewOf;
    assert forall i :: from <= i < |t| ==> u[i] == t[i];
  }

  lemma SwitchLeaves(t: seq<D.Dir>, from: nat, commit: nat, v: D.View, w: D.View)
    requires T.SwitchesAt(t, from, commit, v, w)
    ensures Leaves(t, from, StoredAs(v), StoredAs(w))
  {
    hide D.Recoverable, D.ViewOf;
  }

  /** An ID that a new snapshot may take: it is later than those of all snapshots. */
  predicate Unused(d: D.Dir, id: D.Id) {
    !d.Mentions(id) && forall x :: x in d.snaps ==> D.Less(x, id)
  }

  /** What can happen to a running node: whatever its state allows, at most one sink at a time, and
      a new snapshot only under an unused ID. */
  predicate CanHappen(n: Node, d: D.Dir, e: Event, id: D.Id) {
    Enabled(n, e) && !e.Restarted? && (e.Persisted? ==> !n.persisted) &&
    (e.Persisted? || e.PersistFailed? || e.Installed? ==> Unused(d, id))
  }

  class FsmStore {
    const str: T.Store
    var sink: K.Sink?
    var dbFile: Db
    var walFile: seq<Frame>
    var walCopied: bool
    var fileTime: nat
    var dbModifiedTime: Option<nat>
    var inFlight: Flight
    var persistSucceeded: bool
    ghost var taken: Db

    /** The directory without the temporary one of an open sink. */
    ghost function Base(): D.Dir
      reads this, str
    {
      str.dir.(tmps := map[])
    }

    /** A sink is open exactly while a persisted snapshot waits to be finalized, and holds it. */
    ghost predicate Valid()
      reads this, str, sink
    {
      str.Logged() && D.Clean(Base()) &&
      (persistSucceeded <==> sink != null) && (sink == null ==> str.dir.tmps == map[]) &&
      (sink != null ==> sink.str == str && sink.isOpen && sink.Valid() && inFlight != Landed &&
                        str.dir.tmps[sink.id].data == RawOf(inFlight) && LaterThan(D.ViewOf(Base()), sink.id)) &&
      (inFlight.Delta? ==> SCRATCH in str.outside && str.outside[SCRATCH] == D.WalData(inFlight.frs))
    }

    /** The chain's view of the node: the stored snapshot and the flag are those of the directory. */
    ghost function State(): Node
      requires Valid()
      reads this, str, sink
    {
      Node(dbFile, walFile, walCopied, fileTime, dbModifiedTime, StoredAs(D.ViewOf(Base())), str.dir.full,
           inFlight, persistSucceeded, taken)
    }

    /** Starting on a repaired store: its snapshot is restored, if there is one. */
    constructor (s: T.Store, empty: Db, time: nat, ghost goal: Db)
      requires D.Clean(s.dir) && s.Logged()
      ensures str == s && sink == null && Valid()
      ensures var stored := StoredAs(D.ViewOf(s.dir));
              State() == Node(if stored.Some? then stored.value else empty, [], false, time,
                              if stored.Some? then Some(time) else None, stored, s.dir.full, Landed, false, goal)
    {
      str, sink, walFile, walCopied, inFlight, persistSucceeded := s, null, [], false, Landed, false;
      fileTime, taken := time, goal;
      dbFile, dbModifiedTime := empty, None;
      new;
      StoredIff(s.dir);
      var ids, ok := str.GetSnapshots();
      D.ListEnds(ids, str.dir.snaps.Keys);
      assert Base() == str.dir;
      if ids != [] {
        dbFile, dbModifiedTime := str.dir.dbs[ids[|ids| - 1]], Some(time);
      }
    }

    method SwapIn(db: Db, t: nat)
      requires Valid()
      modifies this`dbFile, this`walFile, this`walCopied, this`fileTime
      ensures Valid() && State() == Swap(old(State()), db, t)
    {
      dbFile, walFile, walCopied, fileTime := db, [], false, if t > fileTime then t else fileTime + 1;
    }

    /** One filesystem call, with or without an open sink. */
    method SetFullNeeded()
      requires Valid()
      modifies str`dir, str`trace
      ensures Valid() && State() == old(State()).(full := true)
      ensures old(str.trace) <= str.trace && Leaves(str.trace, |old(str.trace)|, State().stored, State().stored)
    {
      hide D.Recoverable, D.ViewOf, D.Clean, T.Store.Logged;
      ghost var base := Base();
      str.Do(T.SetFull(true));
      assert Base() == base.(full := true);
      if sink != null {
        SameBase(base, str.dir, str.dir.tmps, sink.id, true);
      } else {
        assert str.dir == Base();
        FlagOnly(base, true);
        assert D.Recoverable(Base()) by { CleanIsRecoverable(Base()); }
      }
    }

    /** Applies a log entry; swapping in a whole database sets FULL_NEEDED, a chunked load does not. */
    method FsmApply(c: Command)
      requires Valid()
      modifies this, str`dir, str`trace
      ensures Valid() && sink == old(sink) && State() == Next(old(State()), Event.Command(c))
      ensures old(str.trace) <= str.trace && Leaves(str.trace, |old(str.trace)|, State().stored, State().stored)
    {
      hide D.Recoverable, D.ViewOf, D.Clean, T.Store.Logged;
      match c {
        case Exec(tx) =>
          walFile, walCopied := walFile + tx, walCopied && tx == [];
        case LoadDb(db, t) =>
          SwapIn(db, t);
          SetFullNeeded();
        case LoadFails =>
          SetFullNeeded();
        case LastChunk(db, t) =>
          SwapIn(db, t);
      }
    }

    /** A write that starts a WAL afresh, all of which is in the database file. */
    method WriteAfresh(tx: seq<Frame>)
      requires Valid()
      modifies this`walFile, this`walCopied
      ensures Valid() && State() == Next(old(State()), Rewound(tx))
    {
      walFile, walCopied := tx, false;
    }

    /** Loads a database past Raft, on a leader that is the only node; `data` is the database in the
        input, if it holds one. The snapshot that follows is taken by Raft. */
    method ReadFrom(leader: bool, nodes: nat, data: Option<Db>, logged: bool, t: nat) returns (ok: bool)
      requires Valid()
      modifies this, str`dir, str`trace
      ensures Valid() && (ok <==> leader && nodes == 1 && data.Some? && logged)
      ensures State() == if ok then Next(Next(old(State()), Booted(data.value, t)), Event.Flagged) else old(State())
      ensures old(str.trace) <= str.trace && Leaves(str.trace, |old(str.trace)|, State().stored, State().stored)
    {
      hide D.Recoverable, D.ViewOf, D.Clean, T.Store.Logged;
      if !leader || nodes != 1 { return false; }
      if data.None? { return false; }
      if !logged { return false; }
      SwapIn(data.value, t);
      SetFullNeeded();
      return true;
    }

    /** True if the database file changed outside of the control of snapshotting. */
    method DbModified() returns (b: bool)
      requires Valid()
      ensures b == Modified(State())
    {
      b := dbModifiedTime.Some? && fileTime > dbModifiedTime.value;
    }

    /** The snapshot store asks for a full snapshot when flagged, and when it has none. */
    method StoreNeedsFull() returns (b: bool)
      requires Valid() && sink == null
      ensures b == FullNeeded(State())
    {
      hide D.ViewOf, T.Store.Logged;
      assert Base() == str.dir;
      StoredIff(str.dir);
      var ids, ok := str.GetSnapshots();
      D.ListEnds(ids, str.dir.snaps.Keys);
      b := str.dir.full || ids == [];
    }

    /** Moves the whole WAL into the database file. */
    method CheckpointTruncate(t: nat)
      requires Valid()
      modifies this`dbFile, this`walFile, this`walCopied, this`fileTime
      ensures Valid() && State() == Truncated(old(State()), t)
    {
      hide D.Recoverable, D.ViewOf, D.Clean, Checkpoint, T.Store.Logged;
      if walFile == [] { return; }
      dbFile, fileTime := Checkpoint(dbFile, walFile), if t > fileTime then t else fileTime + 1;
      walFile, walCopied := [], false;
    }

    /** Takes a snapshot, or fails in one of the modelled ways. */
    method FsmSnapshot(t: nat, fault: Option<Fault>) returns (ok: bool)
      requires Valid() && inFlight == Landed && (fault.Some? ==> MayFail(State(), fault.value))
      modifies this, str`outside
      ensures Valid() && sink == null && (ok <==> fault.None?)
      ensures State() == if ok then Snap(old(State()), t) else SnapFails(old(State()), fault.value)
    {
      hide D.Recoverable, D.ViewOf, D.Clean, Checkpoint, Latest, WrittenPages, T.Store.Logged;
      if fault.Some? {
        Attempt(fault.value);
        ok := false;
      } else {
        TakeSnapshot(t);
        ok := true;
      }
      dbModifiedTime := Some(fileTime);
    }

    /** An attempt that does not get through. */
    method Attempt(fault: Fault)
      requires Valid() && inFlight == Landed
      modifies this`dbFile, this`walFile, this`walCopied, this`fileTime
      ensures Valid() && Recorded(State()) == SnapFails(old(State()), fault)
    {
      hide D.Recoverable, D.ViewOf, D.Clean, Checkpoint, WrittenPages, T.Store.Logged;
      match fault {
        case Early =>
        case Halfway(written, t) =>
          dbFile, fileTime := WrittenPages(dbFile, walFile, written), if t > fileTime then t else fileTime + 1;
        case Busy(t) =>
          if walFile != [] {
            dbFile, walCopied := Checkpoint(dbFile, walFile), true;
            fileTime := if t > fileTime then t else fileTime + 1;
          }
        case AfterTruncate(t) =>
          CheckpointTruncate(t);
      }
    }

    /** Everything but the deferred recording of the file's modification time. */
    method TakeSnapshot(t: nat)
      requires Valid() && inFlight == Landed
      modifies this, str`outside
      ensures Valid() && sink == null && Recorded(State()) == Snap(old(State()), t)
    {
      hide D.Recoverable, D.ViewOf, D.Clean, Checkpoint, Latest, T.Store.Logged;
      var modified := DbModified();
      var fullNeeded := StoreNeedsFull();
      taken := Live(State());
      if fullNeeded || modified {
        CheckpointTruncate(t);
        inFlight := FullCopy(dbFile);
      } else if walFile != [] {
        var compacted := Latest(walFile, FramePage);
        str.outside := str.outside[SCRATCH := D.WalData(compacted)];
        CheckpointTruncate(t);
        inFlight := Delta(compacted);
      } else {
        inFlight := NoChange;
      }
    }

    /** Raft creates a sink and the snapshot is copied into it. */
    method Persist(id: D.Id)
      requires Valid() && inFlight != Landed && sink == null && Unused(str.dir, id)
      modifies this, str`dir, str`trace
      ensures Valid() && fresh(sink) && State() == Next(old(State()), Persisted)
      ensures old(str.trace) <= str.trace && Leaves(str.trace, |old(str.trace)|, State().stored, State().stored)
    {
      var s := OpenSink(id, RawOf(inFlight));
      hide D.Recoverable, D.ViewOf, D.Clean, T.Store.Logged;
      sink, persistSucceeded := s, true;
    }

    /** A new sink with the given data in it. */
    method OpenSink(id: D.Id, data: D.Data) returns (s: K.Sink)
      requires Valid() && sink == null && Unused(str.dir, id)
      modifies str`dir, str`trace
      ensures str.Logged()
      ensures fresh(s) && s.str == str && s.id == id && s.isOpen && s.Valid()
      ensures str.dir.tmps.Keys == {id} && str.dir == old(str.dir).(tmps := str.dir.tmps) &&
              str.dir.tmps[id].data == data
      ensures LaterThan(D.ViewOf(old(str.dir)), id)
      ensures old(str.trace) <= str.trace
      ensures Leaves(str.trace, |old(str.trace)|, StoredAs(D.ViewOf(old(str.dir))), StoredAs(D.ViewOf(old(str.dir))))
    {
      ghost var base, t0 := str.dir, |str.trace|;
      assert Base() == base;
      NewestIsOlder(base, id);
      hide D.Recoverable, D.ViewOf, D.Clean, T.Store.Logged;
      s := new K.Sink(str, id);
      s.Open();
      assert s.Base() == base;
      ghost var t1 := str.trace;
      s.Write(data);
      assert s.Base() == base;
      assert T.AllSafe(str.trace, t0, D.ViewOf(base)) by {
        assert forall i :: t0 <= i < |t1| ==> str.trace[i] == t1[i];
      }
      SafeLeaves(str.trace, t0, D.ViewOf(base), StoredAs(D.ViewOf(base)));
    }

    /** Persisting fails: the sink is cancelled and the snapshot released. */
    method PersistFails(id: D.Id)
      requires Valid() && inFlight != Landed && sink == null && Unused(str.dir, id)
      modifies this, str`dir, str`trace
      ensures Valid() && sink == null && State() == Next(old(State()), PersistFailed)
      ensures old(str.trace) <= str.trace && Leaves(str.trace, |old(str.trace)|, State().stored, State().stored)
    {
      ghost var base, t0 := str.dir, |str.trace|;
      assert Base() == base;
      var s := OpenSink(id, D.Junk);
      hide D.Recoverable, D.ViewOf, D.Clean, T.Store.Logged;
      assert s.Base() == base;
      ghost var t1 := str.trace;
      s.Cancel();
      SafeLeaves(str.trace, |t1|, D.ViewOf(base), StoredAs(D.ViewOf(base)));
      ghost var t2 := str.trace;
      Release();
      LeavesLonger(t1, t2, t0, StoredAs(D.ViewOf(base)));
      LeavesLonger(t2, str.trace, t0, StoredAs(D.ViewOf(base)));
    }

    /** Called once Raft is done with the snapshot, which is gone if it was never persisted. */
    method Release()
      requires Valid()
      modifies this, str`dir, str`trace
      ensures Valid() && sink == old(sink)
      ensures State() == if persistSucceeded then old(State()) else SnapshotChain.PersistFails(old(State()))
      ensures old(str.trace) <= str.trace && Leaves(str.trace, |old(str.trace)|, State().stored, State().stored)
    {
      hide D.Recoverable, D.ViewOf, D.Clean, T.Store.Logged;
      if !persistSucceeded {
        SetFullNeeded();
        inFlight := Landed;
      }
    }

    /** Finalizing: the sink turns the snapshot in flight into the stored one. */
    method SinkClose()
      requires Valid() && sink != null && Inv(State())
      modifies this, str`dir, str`trace, str`outside, sink
      ensures Valid() && sink == null && State() == Next(old(State()), Finalized)
      ensures old(str.trace) <= str.trace
      ensures Leaves(str.trace, |old(str.trace)|, old(State()).stored, Landing(old(State())))
    {
      hide D.Recoverable, D.ViewOf, D.Clean, Inv, Landing, T.Store.Logged;
      hide K.Incoming, K.NewDb, K.Acceptable, RawOf, DataOf;
      ghost var w := Landing(State());
      ClosesWell();
      CloseSink(sink, inFlight, w);
      assert Base() == str.dir;
      sink, inFlight, persistSucceeded := null, Landed, false;
    }

    lemma ClosesWell()
      requires Valid() && sink != null && Inv(State())
      ensures var v := D.ViewOf(sink.Base());
              K.Acceptable(v, sink.id, RawOf(inFlight), DataOf(inFlight)) &&
              Landing(State()) == Some(K.NewDb(v, sink.id, RawOf(inFlight), DataOf(inFlight))) &&
              K.Incoming(RawOf(inFlight), str.outside) == DataOf(inFlight)
    {
      hide Inv;
      FinalizesAsExpected(State(), D.ViewOf(Base()), sink.id);
    }

    /** A snapshot from the leader is stored and then replaces the database. */
    method Install(db: Db, id: D.Id, t: nat)
      requires Valid() && inFlight == Landed && Unused(str.dir, id)
      modifies this, str`dir, str`trace, str`outside
      ensures Valid() && sink == null && State() == Next(old(State()), Installed(db, t))
      ensures old(str.trace) <= str.trace
      ensures Leaves(str.trace, |old(str.trace)|, old(State()).stored, Some(db))
    {
      hide D.Recoverable, D.ViewOf, D.Clean, T.Store.Logged, Leaves;
      StoreReceived(db, id);
      FsmRestore(db, t);
    }

    method StoreReceived(db: Db, id: D.Id)
      requires Valid() && inFlight == Landed && Unused(str.dir, id)
      modifies str`dir, str`trace, str`outside
      ensures Valid() && sink == null && State() == old(State()).(stored := Some(db), full := false)
      ensures old(str.trace) <= str.trace
      ensures Leaves(str.trace, |old(str.trace)|, old(State()).stored, Some(db))
    {
      ghost var base, t0 := str.dir, |str.trace|;
      assert Base() == base;
      ghost var v := D.ViewOf(base);
      var s := OpenSink(id, D.Sqlite(db));
      hide D.Recoverable, D.ViewOf, T.Store.Logged;
      assert s.Base() == base;
      ghost var t1 := str.trace;
      var ok, commit := s.Close();
      SwitchLeaves(str.trace, |t1|, commit, v, D.Snapshot(id, db));
      LeavesTwo(t1, str.trace, t0, StoredAs(v), Some(db));
      assert str.dir.tmps == map[] && Base() == str.dir;
    }

    /** Replaces the database by the stored snapshot. */
    method FsmRestore(db: Db, t: nat)
      requires Valid() && inFlight == Landed && State().stored == Some(db)
      modifies this`dbFile, this`walFile, this`walCopied, this`fileTime, this`dbModifiedTime
      ensures Valid() && State() == Recorded(Swap(old(State()), db, t))
    {
      hide D.Recoverable, D.ViewOf, D.Clean, T.Store.Logged;
      SwapIn(db, t);
      dbModifiedTime := Some(fileTime);
    }

    predicate NeedsFull()
      reads this, str
    {
      str.dir.full || str.dir.snaps == map[]
    }

    predicate Newer()
      reads this
    {
      dbModifiedTime.Some? && fileTime > dbModifiedTime.value
    }

    /** What Raft and SQLite may bring about now; a failing attempt only if it is harmless. */
    predicate Possible(e: Event, id: D.Id)
      reads this, str
    {
      match e
      case Command(c) => c.Exec? ==> WholeTransactions(c.tx)
      case Rewound(tx) => walCopied && tx != [] && WholeTransactions(tx)
      case Booted(_, _) => true
      case Flagged => true
      case Snapshot(_) => inFlight == Landed
      case SnapshotFails(f) =>
        inFlight == Landed && (f.AfterTruncate? ==> NeedsFull() || Newer()) &&
        (NeedsFull() || (!Newer() && !(f.Busy? && walFile != [])))
      case Persisted => inFlight != Landed && !persistSucceeded && Unused(str.dir, id)
      case PersistFailed => inFlight != Landed && !persistSucceeded && Unused(str.dir, id)
      case Finalized => persistSucceeded
      case Installed(_, _) => inFlight == Landed && Unused(str.dir, id)
      case Restarted(_, _, _, _) => false
    }

    /** The test on the node's own fields and directory is the one on its state. */
    lemma PossibleIff(e: Event, id: D.Id)
      requires Valid()
      ensures Possible(e, id) <==> CanHappen(State(), str.dir, e, id)
    {
      StoredIff(Base());
      hide D.Recoverable, D.ViewOf, D.Clean, T.Store.Logged;
    }

    /** Lets one event happen, if it can. */
    method Handle(e: Event, id: D.Id) returns (done: bool)
      requires Valid() && Inv(State())
      modifies this, str`dir, str`trace, str`outside, sink
      ensures Valid() && (sink == null || fresh(sink) || sink == old(sink))
      ensures done <==> CanHappen(old(State()), old(str.dir), e, id)
      ensures if done then State() == Next(old(State()), e)
              else State() == old(State()) && str.trace == old(str.trace)
      ensures old(str.trace) <= str.trace
      ensures Leaves(str.trace, |old(str.trace)|, old(State()).stored, MayHold(old(State()), e))
    {
      hide D.Recoverable, D.ViewOf, D.Clean, Inv, T.Store.Logged;
      PossibleIff(e, id);
      done := Possible(e, id);
      if !done { return; }
      hide Enabled, CanHappen;
      match e {
        case Command(c) => FsmApply(c);
        case Rewound(tx) => WriteAfresh(tx);
        case Booted(db, t) => SwapIn(db, t);
        case Flagged => SetFullNeeded();
        case Snapshot(t) => var ok := FsmSnapshot(t, None);
        case SnapshotFails(f) => FailSnapshot(f);
        case Persisted => Persist(id);
        case PersistFailed => PersistFails(id);
        case Finalized => SinkClose();
        case Installed(db, t) => Install(db, id, t);
        case Restarted(_, _, _, _) =>
      }
    }

    method FailSnapshot(f: Fault)
      requires Valid() && Enabled(State(), SnapshotFails(f))
      modifies this, str`outside
      ensures Valid() && sink == old(sink) && State() == Next(old(State()), SnapshotFails(f))
    {
      hide D.Recoverable, D.ViewOf, D.Clean, T.Store.Logged;
      var ok := FsmSnapshot(0, Some(f));
    }
  }

  lemma CleanIsRecoverable(d: D.Dir)
    requires D.Clean(d)
    ensures D.Recoverable(d)
  {
  }

  /** Closes a sink that holds a snapshot acceptable to its store. */
  method CloseSink(sink: K.Sink, flight: Flight, ghost w: Option<Db>)
    requires sink.str.Logged() && sink.isOpen && sink.Valid() && sink.str.dir.tmps[sink.id].data == RawOf(flight)
    requires K.Incoming(RawOf(flight), sink.str.outside) == DataOf(flight)
    requires var v := D.ViewOf(sink.Base());
             K.Acceptable(v, sink.id, RawOf(flight), DataOf(flight)) &&
             w == Some(K.NewDb(v, sink.id, RawOf(flight), DataOf(flight)))
    modifies sink, sink.str`dir, sink.str`trace, sink.str`outside
    ensures sink.str.Logged() && D.Clean(sink.str.dir) && sink.str.dir.tmps == map[] && !sink.str.dir.full
    ensures StoredAs(D.ViewOf(sink.str.dir)) == w
    ensures old(sink.str.trace) <= sink.str.trace
    ensures Leaves(sink.str.trace, |old(sink.str.trace)|, StoredAs(D.ViewOf(old(sink.Base()))), w)
  {
    hide D.Recoverable, D.ViewOf, K.Incoming, K.NewDb, K.Acceptable, RawOf, DataOf, D.Dir.Mentions, T.Store.Logged;
    ghost var v, t0 := D.ViewOf(sink.Base()), |sink.str.trace|;
    var ok, commit := sink.Close();
    SwitchLeaves(sink.str.trace, t0, commit, v, D.Snapshot(sink.id, w.value));
  }

  /** What a crash during an event may leave in the store, other than what was there. */
  function MayHold(n: Node, e: Event): Option<Db> {
    match e
    case Finalized => Landing(n)
    case Installed(db, _) => Some(db)
    case _ => n.stored
  }

  // ------------------------------------------------- whole lives

  /** An event, the ID and the time it would use, and the filesystem call after which the node
      dies; it survives if there is no such call. While the node is down it tries to come up. */
  datatype Happening = Happening(e: Event, id: D.Id, time: nat, dies: int)

  /** A node that is not running, over the directory `d`; its files are no newer than `clock`. */
  ghost predicate Down(n: Node, d: D.Dir, clock: nat) {
    D.Recoverable(d) && n.stored == StoredAs(D.ViewOf(d)) && n.flight == Landed && !n.persisted && n.mtime <= clock
  }

  /** The chain's events for a node that dies leaving directory `d`: the store holds what it held,
      or what the event was about to put there. */
  ghost function DyingOf(n: Node, e: Event, d: D.Dir, empty: Db): seq<Event>
    requires D.Recoverable(d)
  {
    var landed := StoredAs(D.ViewOf(d)) != n.stored;
    if landed && !e.Finalized? then [e, Restarted(false, d.full, empty, 0)]
    else [Restarted(landed, d.full, empty, 0)]
  }

  lemma Dying(n: Node, e: Event, d: D.Dir, empty: Db)
    requires Inv(n) && Enabled(n, e) && D.Recoverable(d)
    requires StoredAs(D.ViewOf(d)) == n.stored || StoredAs(D.ViewOf(d)) == MayHold(n, e)
    ensures var es := DyingOf(n, e, d, empty); Legal(n, es) && Down(Run(n, es), d, Next(n, e).mtime + 1)
  {
    hide D.Recoverable, D.ViewOf, Inv;
    var stored, es := StoredAs(D.ViewOf(d)), DyingOf(n, e, d, empty);
    TimeAdvances(n, e);
    if stored == n.stored || e.Finalized? {
      assert Down(Crash(n, stored != n.stored, d.full, empty, 0), d, n.mtime + 1);
      hide Crash, Down;
      OneEvent(n, es[0]);
      LaterClock(Next(n, es[0]), d, n.mtime + 1, Next(n, e).mtime + 1);
    } else {
      var m, r := Next(n, e), Restarted(false, d.full, empty, 0);
      assert Down(Crash(m, false, d.full, empty, 0), d, m.mtime + 1);
      hide Crash, Down;
      assert es == [e] + [r];
      RunCons(n, e, [r]);
      OneEvent(m, r);
    }
  }

  lemma TimeAdvances(n: Node, e: Event)
    ensures n.mtime <= Next(n, e).mtime
  {
    hide Checkpoint, Latest, WrittenPages;
  }

  lemma LaterClock(n: Node, d: D.Dir, clock: nat, later: nat)
    requires Down(n, d, clock) && clock <= later
    ensures Down(n, d, later)
  {
  }

  lemma {:induction false} LegalAppend(n: Node, es: seq<Event>, fs: seq<Event>)
    requires Legal(n, es) && Legal(Run(n, es), fs)
    ensures Legal(n, es + fs) && Run(n, es + fs) == Run(Run(n, es), fs)
    decreases |es|
  {
    hide Enabled, Next;
    if es == [] {
      assert es + fs == fs;
    } else {
      assert (es + fs)[1..] == es[1..] + fs;
      LegalAppend(Next(n, es[0]), es[1..], fs);
    }
  }

  /** The chain's history so far. */
  ghost predicate History(n0: Node, run: seq<Event>, n: Node) {
    Inv(n0) && Legal(n0, run) && n == Run(n0, run) && Inv(n)
  }

  lemma HistoryGoesOn(n0: Node, run: seq<Event>, n: Node, es: seq<Event>)
    requires History(n0, run, n) && Legal(n, es)
    ensures History(n0, run + es, Run(n, es))
  {
    hide Inv;
    LegalAppend(n0, run, es);
    RunKeeps(n, es);
  }

  /** What became of one happening: whether the node was running, its state and directory before,
      the directories it went through call by call, the time at which it tried to come up, and
      then its events in the chain, its state and its directory after. */
  datatype Chapter = Chapter(up: bool, before: Node, dir: D.Dir, calls: seq<D.Dir>, time: nat,
                             es: seq<Event>, after: Node, left: D.Dir)

  ghost predicate Dies(h: Happening, c: Chapter) { 0 <= h.dies < |c.calls| }

  /** The directory goes from one state to the other a call at a time, as far as the node lives. */
  ghost predicate CallsFit(h: Happening, c: Chapter) {
    T.Traced(c.dir, c.calls) && c.left == if Dies(h, c) then c.calls[h.dies] else T.End(c.dir, c.calls)
  }

  /** What the chain sees of a happening. A running node meets the event if that can happen, and
      nothing else; if it dies of it, the event counts if the store shows it. A node that is down
      restarts on the snapshot it finds. */
  ghost predicate EventsFit(h: Happening, c: Chapter, empty: Db)
    requires D.Recoverable(c.left)
  {
    if !c.up then h.time <= c.time && c.es == [Restarted(false, c.left.full, empty, c.time)]
    else if Dies(h, c) then CanHappen(c.before, c.dir, h.e, h.id) && c.es == DyingOf(c.before, h.e, c.left, empty)
    else c.es == if CanHappen(c.before, c.dir, h.e, h.id) then [h.e] else []
  }

  ghost predicate Fits(h: Happening, c: Chapter, empty: Db) {
    CallsFit(h, c) && D.Recoverable(c.left) && EventsFit(h, c, empty) &&
    Legal(c.before, c.es) && c.after == Run(c.before, c.es) && c.after.stored == StoredAs(D.ViewOf(c.left)) &&
    Leaves(c.calls, 0, c.before.stored, if c.up then MayHold(c.before, h.e) else c.before.stored)
  }

  lemma LogLeads(s: T.Store)
    requires s.Logged()
    ensures T.Traced(s.start, s.trace) && s.dir == T.End(s.start, s.trace)
  {
  }

  /** One event on a running node, and the directory it leaves if it dies of it. */
  method Happen(fs: FsmStore, h: Happening, empty: Db, ghost n: Node)
    returns (up: bool, left: D.Dir, ghost c: Chapter, clock: nat)
    requires fs.Valid() && fs.State() == n && Inv(n)
    modifies fs, fs.str, fs.sink
    ensures Fits(h, c, empty) && c.up && c.before == n && c.dir == old(fs.str.dir) && c.left == left
    ensures up <==> !Dies(h, c)
    ensures h.dies < 0 ==> up && c.es == if CanHappen(n, old(fs.str.dir), h.e, h.id) then [h.e] else []
    ensures up ==> fs.Valid() && fs.State() == c.after && fs.str.dir == left
    ensures fs.sink == null || fresh(fs.sink) || fs.sink == old(fs.sink)
    ensures !up ==> Down(c.after, left, clock)
  {
    hide D.Recoverable, D.ViewOf, D.Clean, Inv, CanHappen, Down, T.Store.Logged, T.Traced;
    ghost var d0 := fs.str.dir;
    fs.str.Begin();
    var done := fs.Handle(h.e, h.id);
    ghost var t := fs.str.trace;
    up, left, clock := !(0 <= h.dies < |fs.str.trace|), fs.str.dir, fs.fileTime + 1;
    ghost var es := if done then [h.e] else [];
    LogLeads(fs.str);
    if up {
      StandsForStored(fs);
      if done {
        CanIsEnabled(n, d0, h.e, h.id);
        OneEvent(n, h.e);
      }
    } else {
      left := fs.str.trace[h.dies];
      CanIsEnabled(n, d0, h.e, h.id);
      Dying(n, h.e, left, empty);
      es := DyingOf(n, h.e, left, empty);
      DownHolds(Run(n, es), left, clock);
    }
    c := Chapter(true, n, d0, t, 0, es, Run(n, es), left);
  }

  lemma CanIsEnabled(n: Node, d: D.Dir, e: Event, id: D.Id)
    requires CanHappen(n, d, e, id)
    ensures Enabled(n, e)
  {
  }

  lemma DownHolds(n: Node, d: D.Dir, clock: nat)
    requires Down(n, d, clock)
    ensures D.Recoverable(d) && n.stored == StoredAs(D.ViewOf(d))
  {
  }

  /** Opening the store: whatever was left unfinished is finished or undone. */
  method Repair(left: D.Dir) returns (str: T.Store)
    requires D.Recoverable(left)
    ensures fresh(str) && str.Logged() && T.Traced(left, str.trace) && str.dir == T.End(left, str.trace)
    ensures D.Clean(str.dir) && D.ViewOf(str.dir) == D.ViewOf(left) && str.dir.full == left.full
    ensures T.AllSafe(str.trace, 0, D.ViewOf(left))
  {
    T.MetasOf(left);
    hide D.Recoverable, D.ViewOf, D.Clean, T.Store.Logged;
    str := new T.Store(left, map[]);
    var ok := str.Check();
    LogLeads(str);
  }

  /** An attempt to come up again: the store is repaired, and unless the node dies of that too,
      it restores the snapshot it finds. */
  method ComeUp(left: D.Dir, h: Happening, empty: Db, clock: nat, ghost n: Node)
    returns (fs: FsmStore?, left': D.Dir, ghost c: Chapter, clock': nat)
    requires Down(n, left, clock)
    ensures Fits(h, c, empty) && !c.up && c.before == n && c.dir == left && c.left == left'
    ensures fs != null <==> !Dies(h, c)
    ensures fs != null ==> fresh(fs) && fresh(fs.str) && fs.sink == null && fs.Valid() && fs.State() == c.after
    ensures fs != null ==> fs.str.dir == left'
    ensures fs == null ==> Down(c.after, left', clock')
  {
    hide D.Recoverable, D.ViewOf, D.Clean, Next, Run, Legal, Down, T.Store.Logged, T.Traced;
    DownHolds(n, left, clock);
    var str := Repair(left);
    var time := if h.time > clock then h.time else clock + 1;
    clock' := time;
    ghost var t := str.trace;
    SafeLeaves(t, 0, D.ViewOf(left), n.stored);
    if 0 <= h.dies < |str.trace| {
      left', fs := str.trace[h.dies], null;
    } else {
      left' := str.dir;
      fs := new FsmStore(str, empty, time, n.goal);
    }
    Revives(n, left, clock, left', time, empty);
    ghost var es := [Restarted(false, left'.full, empty, time)];
    c := Chapter(false, n, left, t, time, es, Run(n, es), left');
  }

  /** The state in which a node comes up again on a directory that was repaired, wholly or in part. */
  lemma Revives(n: Node, d: D.Dir, clock: nat, d': D.Dir, time: nat, empty: Db)
    requires Down(n, d, clock) && clock < time && D.Recoverable(d') && D.ViewOf(d') == D.ViewOf(d)
    ensures var es := [Restarted(false, d'.full, empty, time)];
            Legal(n, es) && Down(Run(n, es), d', time) &&
            Run(n, es) == Node(if n.stored.Some? then n.stored.value else empty, [], false, time,
                               if n.stored.Some? then Some(time) else None, n.stored, d'.full, Landed, false, n.goal)
  {
    hide D.Recoverable, D.ViewOf;
    OneEvent(n, Restarted(false, d'.full, empty, time));
  }

  // The node's state, its directory and whether it runs, after `k` happenings.

  function NodeAt(n0: Node, tale: seq<Chapter>, k: nat): Node
    requires k <= |tale|
  {
    if k == 0 then n0 else tale[k - 1].after
  }

  function DirAt(d: D.Dir, tale: seq<Chapter>, k: nat): D.Dir
    requires k <= |tale|
  {
    if k == 0 then d else tale[k - 1].left
  }

  ghost predicate UpAt(hs: seq<Happening>, tale: seq<Chapter>, k: nat)
    requires k <= |tale| <= |hs|
  {
    k == 0 || !Dies(hs[k - 1], tale[k - 1])
  }

  ghost predicate Follows(d: D.Dir, n0: Node, hs: seq<Happening>, tale: seq<Chapter>, empty: Db, k: nat)
    requires k < |tale| <= |hs|
  {
    Fits(hs[k], tale[k], empty) && tale[k].before == NodeAt(n0, tale, k) &&
    tale[k].dir == DirAt(d, tale, k) && tale[k].up == UpAt(hs, tale, k)
  }

  /** One chapter per happening, each beginning as the one before it ended. */
  ghost predicate Tells(d: D.Dir, n0: Node, hs: seq<Happening>, tale: seq<Chapter>, empty: Db) {
    |tale| <= |hs| && forall k :: 0 <= k < |tale| ==> Follows(d, n0, hs, tale, empty, k)
  }

  /** All events of a tale, in order. */
  function EventsOf(tale: seq<Chapter>): seq<Event>
    decreases |tale|
  {
    if tale == [] then [] else EventsOf(tale[..|tale| - 1]) + tale[|tale| - 1].es
  }

  lemma OneMoreChapter(d: D.Dir, n0: Node, hs: seq<Happening>, tale: seq<Chapter>, empty: Db, c: Chapter)
    requires Tells(d, n0, hs, tale, empty) && |tale| < |hs| && Fits(hs[|tale|], c, empty)
    requires c.before == NodeAt(n0, tale, |tale|) && c.dir == DirAt(d, tale, |tale|)
    requires c.up == UpAt(hs, tale, |tale|)
    ensures Tells(d, n0, hs, tale + [c], empty) && EventsOf(tale + [c]) == EventsOf(tale) + c.es
  {
    hide Fits, Dies;
    forall k | 0 <= k < |tale| + 1 ensures Follows(d, n0, hs, tale + [c], empty, k) {
      if k < |tale| { assert Follows(d, n0, hs, tale, empty, k); }
    }
    assert (tale + [c])[..|tale|] == tale;
  }

  lemma FitGoesOn(n0: Node, run: seq<Event>, h: Happening, c: Chapter, empty: Db)
    requires History(n0, run, c.before) && Fits(h, c, empty)
    ensures History(n0, run + c.es, c.after)
    ensures D.Recoverable(c.left) && c.after.stored == StoredAs(D.ViewOf(c.left))
  {
    hide D.Recoverable, D.ViewOf, History, EventsFit, CallsFit, Leaves;
    HistoryGoesOn(n0, run, c.before, c.es);
  }

  /** A node that has just started on a store with that snapshot and flag, at time zero. */
  function Started(stored: Option<Db>, full: bool, empty: Db): Node {
    Node(if stored.Some? then stored.value else empty, [], false, 0,
         if stored.Some? then Some(0) else None, stored, full, Landed, false, empty)
  }

  /** Lives through any list of happenings, with a crash after any filesystem call, also of the
      repairs. The tale says what each did; its events are a history of the chain, whose invariant
      holds throughout; what the chain takes for the stored snapshot is what the directory stands
      for; and the node, if it runs, is in the state to which the history leads. */
  method LiveOn(d: D.Dir, empty: Db, hs: seq<Happening>)
    returns (ghost n0: Node, ghost tale: seq<Chapter>, ghost n: Node, last: D.Dir, fs: FsmStore?)
    requires D.Clean(d)
    ensures |tale| == |hs| && Tells(d, n0, hs, tale, empty) && n == NodeAt(n0, tale, |hs|)
    ensures n0 == Started(StoredAs(D.ViewOf(d)), d.full, empty) && History(n0, EventsOf(tale), n)
    ensures last == DirAt(d, tale, |hs|) && D.Recoverable(last) && n.stored == StoredAs(D.ViewOf(last))
    ensures fs != null <==> UpAt(hs, tale, |hs|)
    ensures fs != null ==> fs.Valid() && fs.State() == n && fs.str.dir == last
    ensures Chained(n) && LandsRight(n)
  {
    CleanIsRecoverable(d);
    hide D.Recoverable, D.ViewOf, D.Clean, Inv, History, Fits, Dies, Down;
    var str := new T.Store(d, map[]);
    fs := new FsmStore(str, empty, 0, empty);
    n0, tale, last := fs.State(), [], d;
    n := n0;
    assert History(n0, [], n0) by { Beginning(n0); }
    var clock := 0;
    for k := 0 to |hs|
      invariant |tale| == k && Tells(d, n0, hs, tale, empty) && n == NodeAt(n0, tale, k) && last == DirAt(d, tale, k)
      invariant History(n0, EventsOf(tale), n)
      invariant D.Recoverable(last) && n.stored == StoredAs(D.ViewOf(last))
      invariant fs != null <==> UpAt(hs, tale, k)
      invariant fs != null ==> fresh(fs) && fresh(fs.str) && (fs.sink == null || fresh(fs.sink))
      invariant fs != null ==> fs.Valid() && fs.State() == n && fs.str.dir == last
      invariant fs == null ==> Down(n, last, clock)
    {
      assert Inv(n) by { Now(n0, EventsOf(tale), n); }
      ghost var c;
      if fs != null {
        var alive;
        alive, last, c, clock := Happen(fs, hs[k], empty, n);
        if !alive { fs := null; }
      } else {
        fs, last, c, clock := ComeUp(last, hs[k], empty, clock, n);
      }
      FitGoesOn(n0, EventsOf(tale), hs[k], c, empty);
      OneMoreChapter(d, n0, hs, tale, empty, c);
      tale, n := tale + [c], c.after;
    }
    Now(n0, EventsOf(tale), n);
    InvIsChained(n);
  }

  lemma Now(n0: Node, run: seq<Event>, n: Node)
    requires History(n0, run, n)
    ensures Inv(n) && LandsRight(n)
  {
  }

  lemma Beginning(n: Node)
    requires n.wal == [] && !n.moved && n.flight == Landed && n.seen == (if n.stored.Some? then Some(n.mtime) else None)
    requires n.stored.Some? ==> n.main == n.stored.value
    ensures History(n, [], n)
  {
  }

  lemma StandsForStored(fs: FsmStore)
    requires fs.Valid()
    ensures D.Recoverable(fs.str.dir) && StoredAs(D.ViewOf(fs.str.dir)) == fs.State().stored
  {
    hide D.Recoverable, D.ViewOf, D.Clean;
    if fs.sink != null {
      SameBase(fs.Base(), fs.str.dir, fs.str.dir.tmps, fs.sink.id, fs.str.dir.full);
    } else {
      assert fs.Base() == fs.str.dir;
      CleanIsRecoverable(fs.str.dir);
    }
  }
}
