/** Full and incremental snapshots of a running node: what the stored snapshot,
    the snapshot being written and the live WAL stand for together. */
module SnapshotChain {
  import opened Bytes
  import opened WalFormat
  import opened WalTheory
  import opened Options
  import SnapshotDir

  /** A snapshot handed to Raft and not finalized yet: a copy of the database
      file, a compacted WAL, or nothing because nothing changed. */
  datatype Flight = Landed | FullCopy(db: Db) | Delta(frs: seq<Frame>) | NoChange

  /** `main` and `wal` are the live database file and its WAL, `mtime` the
      file's modification time and `seen` the one last recorded; `stored` and
      `full` are the snapshot store's newest snapshot and its FULL_NEEDED flag.
      `moved` says that all of the WAL has been copied into the file, so that the next
      writer may start the WAL afresh. `goal` remembers the database as it was when the snapshot in flight was taken. */
  datatype Node = Node(main: Db, wal: seq<Frame>, moved: bool, mtime: nat, seen: Option<nat>,
                       stored: Option<Db>, full: bool, flight: Flight, persisted: bool, goal: Db)

  /** The database that queries see. */
  function Live(n: Node): Db { WithWal(n.main, n.wal) }

  /** A database file together with its WAL, which may be empty. */
  function WithWal(db: Db, w: seq<Frame>): Db { if w == [] then db else Checkpoint(db, w) }

  /** The database file changed since its modification time was recorded. */
  predicate Modified(n: Node) { n.seen.Some? && n.mtime > n.seen.value }

  predicate FullNeeded(n: Node) { n.full || n.stored.None? }

  /** The next snapshot will be a full one. */
  predicate Forced(n: Node) { FullNeeded(n) || Modified(n) }

  // ------------------------------------------------- steps

  function Later(n: Node, t: nat): nat { if t > n.mtime then t else n.mtime + 1 }

  function Swap(n: Node, db: Db, t: nat): Node {
    n.(main := db, wal := [], moved := false, mtime := Later(n, t))
  }

  /** Commands as the state machine sees them: statements that append frames
      (perhaps none), a whole database, a load that fails, the last chunk of a chunked load. */
  datatype Command = Exec(tx: seq<Frame>) | LoadDb(db: Db, t: nat) | LoadFails | LastChunk(db: Db, t: nat)

  function Apply(n: Node, c: Command): Node {
    match c
    case Exec(tx) => n.(wal := n.wal + tx, moved := n.moved && tx == [])
    case LoadDb(db, t) => Swap(n, db, t).(full := true)
    case LoadFails => n.(full := true)
    case LastChunk(db, t) => Swap(n, db, t)
  }

  /** All of the WAL moves into the database file. */
  function Truncated(n: Node, t: nat): Node {
    if n.wal == [] then n else n.(main := Live(n), wal := [], moved := false, mtime := Later(n, t))
  }

  function Recorded(n: Node): Node { n.(seen := Some(n.mtime)) }

  /** Taking a snapshot, which also records the modification time. */
  function Snap(n: Node, t: nat): Node {
    var f := if Forced(n) then FullCopy(Live(n))
             else if n.wal != [] then Delta(Latest(n.wal, FramePage))
             else NoChange;
    Recorded(Truncated(n, t).(flight := f, persisted := false, goal := Live(n)))
  }

  /** Ways in which taking a snapshot fails: before the WAL is touched, with some pages
      checkpointed but not all of the WAL done, with all of it done but the WAL busy and so
      not truncated, or after the WAL was truncated. */
  datatype Fault = Early | Halfway(written: set<u32>, t: nat) | Busy(t: nat) | AfterTruncate(t: nat)

  /** Some of the pages of the WAL copied into the file; pages beyond the final size never are. */
  function WrittenPages(db: Db, w: seq<Frame>, written: set<u32>): Db {
    if w == [] then db
    else
      var o, size := Overlay(w), w[|w| - 1].commit;
      db.(pages := db.pages + (map p | p in o && p in written && p <= size :: o[p]))
  }

  /** The modification time is recorded even when the snapshot fails. */
  function SnapFails(n: Node, fault: Fault): Node {
    match fault
    case Early => Recorded(n)
    case Halfway(written, t) => Recorded(n.(main := WrittenPages(n.main, n.wal, written), mtime := Later(n, t)))
    case Busy(t) => Recorded(if n.wal == [] then n else n.(main := Live(n), moved := true, mtime := Later(n, t)))
    case AfterTruncate(t) => Recorded(Truncated(n, t))
  }

  /** What the store will hold once the snapshot in flight lands. */
  function Landing(n: Node): Option<Db> {
    match n.flight
    case FullCopy(db) => Some(db)
    case Delta(frs) => if n.stored.Some? then Some(Checkpoint(n.stored.value, frs)) else None
    case _ => n.stored
  }

  function Land(n: Node): Node {
    n.(stored := Landing(n), full := false, flight := Landed, persisted := false)
  }

  /** A failed write of the snapshot forces the next one to be full. */
  function PersistFails(n: Node): Node {
    n.(full := true, flight := Landed, persisted := false)
  }

  /** A snapshot installed from the leader replaces store and database. */
  function Restore(n: Node, db: Db, t: nat): Node {
    Recorded(Swap(n, db, t)).(stored := Some(db), full := false)
  }

  /** The process ends, possibly while the store was finalizing: the snapshot in flight either
      landed or did not, and the flag is as it is found. Starting again restores the stored
      snapshot, if there is one. */
  function Crash(n: Node, landed: bool, full: bool, empty: Db, t: nat): Node {
    var s := if landed && n.flight != Landed && n.persisted then Landing(n) else n.stored;
    var base := Swap(n, if s.Some? then s.value else empty, t);
    base.(stored := s, full := full, flight := Landed, persisted := false,
          seen := if s.Some? then Some(base.mtime) else None)
  }

  datatype Event =
    | Command(c: Command)
    | Rewound(tx: seq<Frame>)
    | Booted(db: Db, t: nat)
    | Flagged
    | Snapshot(t: nat)
    | SnapshotFails(fault: Fault)
    | Persisted
    | PersistFailed
    | Finalized
    | Installed(db: Db, t: nat)
    | Restarted(landed: bool, full: bool, empty: Db, t: nat)

  predicate WholeTransactions(tx: seq<Frame>) { EndsInCommit(tx) }

  /** When a failing snapshot attempt loses nothing: a full snapshot is flagged, or there is no
      file change that only the modification time would reveal and the attempt makes none. */
  predicate FailureHarmless(n: Node, fault: Fault) {
    FullNeeded(n) || (!Modified(n) && !(fault.Busy? && n.wal != []))
  }

  /** After a checkpoint that succeeds only opening the database file can fail, and that is only
      done for a full snapshot. */
  predicate MayFail(n: Node, f: Fault) { n.flight == Landed && (f.AfterTruncate? ==> Forced(n)) }

  /** What Raft and SQLite guarantee about the order of events; failing attempts are restricted
      to harmless ones. */
  predicate Enabled(n: Node, e: Event) {
    match e
    case Command(c) => c.Exec? ==> WholeTransactions(c.tx)
    case Rewound(tx) => n.moved && tx != [] && WholeTransactions(tx)
    case Booted(_, _) => true
    case Flagged => true
    case Snapshot(_) => n.flight == Landed
    case SnapshotFails(f) => MayFail(n, f) && FailureHarmless(n, f)
    case Persisted => n.flight != Landed
    case PersistFailed => n.flight != Landed && !n.persisted
    case Finalized => n.flight != Landed && n.persisted
    case Installed(_, _) => n.flight == Landed
    case Restarted(_, _, _, _) => true
  }

  function Next(n: Node, e: Event): Node {
    match e
    case Command(c) => Apply(n, c)
    case Rewound(tx) => n.(wal := tx, moved := false)
    case Booted(db, t) => Swap(n, db, t)
    case Flagged => n.(full := true)
    case Snapshot(t) => Snap(n, t)
    case SnapshotFails(f) => SnapFails(n, f)
    case Persisted => n.(persisted := true)
    case PersistFailed => PersistFails(n)
    case Finalized => Land(n)
    case Installed(db, t) => Restore(n, db, t)
    case Restarted(landed, full, empty, t) => Crash(n, landed, full, empty, t)
  }

  // ------------------------------------------------- the invariant

  /** `b` and the file `m` differ at most on pages that the WAL `w` overwrites. */
  ghost predicate Agrees(b: Db, m: Db, w: seq<Frame>) {
    if w == [] then b == m
    else b.pages - PageSet(w) == m.pages - PageSet(w)
  }

  ghost predicate Inv(n: Node) {
    EndsInCommit(n.wal) &&
    (n.seen.Some? ==> n.seen.value <= n.mtime) &&
    (n.stored.Some? || n.flight != Landed ==> n.seen.Some?) &&
    (n.flight != Landed ==> Landing(n) == Some(n.goal) && (n.flight.FullCopy? || n.stored.Some?)) &&
    (n.moved ==> n.flight == Landed && Forced(n) && n.wal != [] && n.main == Live(n)) &&
    (Modified(n) ||
     (n.flight == Landed && FullNeeded(n)) ||
     (Landing(n).Some? && Agrees(Landing(n).value, n.main, n.wal)))
  }

  /** Files that agree up to a WAL checkpoint to the same database. */
  lemma AgreeingFiles(b: Db, m: Db, w: seq<Frame>)
    requires EndsInCommit(w) && Agrees(b, m, w)
    ensures WithWal(b, w) == WithWal(m, w)
  {
    if w != [] {
      CheckpointIsOverlay(b, w);
      CheckpointIsOverlay(m, w);
      var o := Overlay(w);
      hide Checkpoint, Overlay, Truncate, PageSet;
      Covered(b.pages, o, PageSet(w));
      Covered(m.pages, o, PageSet(w));
    }
  }

  /** What a layer covers does not matter. */
  lemma Covered(pages: map<u32, Page>, o: map<u32, Page>, keys: set<u32>)
    requires o.Keys <= keys
    ensures o.Keys == keys ==> pages + o == (pages - keys) + o
    ensures (pages + o) - keys == pages - keys
  {
  }

  lemma AgreesMore(b: Db, m: Db, w: seq<Frame>, tx: seq<Frame>)
    requires Agrees(b, m, w)
    ensures Agrees(b, m, w + tx)
  {
    if w + tx != [] {
      PageSetConcat(w, tx);
      var k := PageSet(w + tx);
      assert b.pages - k == (b.pages - PageSet(w)) - k;
      assert m.pages - k == (m.pages - PageSet(w)) - k;
      if w == [] { assert PageSet(w) == {}; }
    }
  }

  lemma PageSetConcat(w: seq<Frame>, tx: seq<Frame>)
    ensures PageSet(w) <= PageSet(w + tx)
  {
    forall p | p in PageSet(w) ensures p in PageSet(w + tx) {
      var i :| 0 <= i < |w| && w[i].pgno == p;
      assert (w + tx)[i].pgno == p;
    }
  }

  lemma AgreesHalfway(b: Db, n: Node, written: set<u32>)
    requires Agrees(b, n.main, n.wal)
    ensures Agrees(b, WrittenPages(n.main, n.wal, written), n.wal)
  {
    if n.wal != [] {
      var o, size := Overlay(n.wal), n.wal[|n.wal| - 1].commit;
      hide Overlay, PageSet;
      var sub := map p | p in o && p in written && p <= size :: o[p];
      assert sub.Keys <= o.Keys;
      Covered(n.main.pages, sub, PageSet(n.wal));
    }
  }

  lemma CheckpointIsOverlay(db: Db, w: seq<Frame>)
    requires w != [] && EndsInCommit(w)
    ensures var size := w[|w| - 1].commit; Checkpoint(db, w) == Db(Truncate(db.pages + Overlay(w), size), size)
  {
    hide Overlay;
    ReplayIsOverlay(Replay(map[], map[], db.size), w);
    var o := Overlay(w);
    assert map[] + map[] + o == o;
  }

  lemma AlreadyThere(pages: map<u32, Page>, o: map<u32, Page>, size: u32, written: set<u32>)
    requires pages == Truncate(pages + o, size)
    ensures pages + (map p | p in o && p in written && p <= size :: o[p]) == pages
  {
    forall p | p in o && p <= size ensures p in pages && pages[p] == o[p] {
      assert p in Truncate(pages + o, size);
    }
  }

  /** Copying pages once more changes nothing when all of the WAL is in the file already. */
  lemma MovedHalfway(n: Node, written: set<u32>)
    requires EndsInCommit(n.wal) && n.main == Live(n)
    ensures WrittenPages(n.main, n.wal, written) == n.main
  {
    hide Checkpoint, Overlay, Truncate;
    if n.wal != [] {
      CheckpointIsOverlay(n.main, n.wal);
      AlreadyThere(n.main.pages, Overlay(n.wal), n.wal[|n.wal| - 1].commit, written);
    }
  }

  /** Taking a snapshot: what it will store is the live database at that moment. */
  lemma SnapKeeps(n: Node, t: nat)
    requires Inv(n) && n.flight == Landed
    ensures Inv(Snap(n, t))
  {
    if !Forced(n) {
      AgreeingFiles(n.stored.value, n.main, n.wal);
      if n.wal != [] { CompactionPreservesMeaning(n.stored.value, n.wal); }
    }
  }

  lemma FailKeeps(n: Node, fault: Fault)
    requires Inv(n) && MayFail(n, fault) && FailureHarmless(n, fault)
    ensures Inv(SnapFails(n, fault))
  {
    hide Checkpoint, Overlay, WrittenPages;
    if fault.Halfway? {
      if n.moved { MovedHalfway(n, fault.written); }
      if !FullNeeded(n) { AgreesHalfway(n.stored.value, n, fault.written); }
    }
    if fault.Busy? { SnapshotDir.ReplayTwice(n.main, n.wal); }
  }

  lemma ExecKeeps(n: Node, tx: seq<Frame>)
    requires Inv(n) && WholeTransactions(tx)
    ensures Inv(Apply(n, Exec(tx)))
  {
    assert tx == [] ==> n.wal + tx == n.wal;
    if Landing(n).Some? && Agrees(Landing(n).value, n.main, n.wal) {
      AgreesMore(Landing(n).value, n.main, n.wal, tx);
    }
  }

  /** Every step keeps the invariant. */
  lemma StepKeeps(n: Node, e: Event)
    requires Inv(n) && Enabled(n, e)
    ensures Inv(Next(n, e))
  {
    hide Checkpoint, Latest, Overlay;
    match e
    case Command(Exec(tx)) => ExecKeeps(n, tx);
    case Snapshot(t) => SnapKeeps(n, t);
    case SnapshotFails(f) => FailKeeps(n, f);
    case _ =>
  }

  // ------------------------------------------------- runs

  /** A node that has just started for the first time. */
  predicate Initial(n: Node) {
    n.wal == [] && !n.moved && n.seen.None? && n.stored.None? && n.flight == Landed && !n.persisted
  }

  function Run(n: Node, es: seq<Event>): Node
    decreases |es|
  {
    if es == [] then n else Run(Next(n, es[0]), es[1..])
  }

  predicate Legal(n: Node, es: seq<Event>)
    decreases |es|
  {
    es == [] || (Enabled(n, es[0]) && Legal(Next(n, es[0]), es[1..]))
  }

  lemma {:induction false} RunKeeps(n: Node, es: seq<Event>)
    requires Inv(n) && Legal(n, es)
    ensures Inv(Run(n, es))
    decreases |es|
  {
    if es != [] {
      StepKeeps(n, es[0]);
      RunKeeps(Next(n, es[0]), es[1..]);
    }
  }

  /** The next snapshot is forced to be full, or the stored snapshot plus the one in flight plus
      the live WAL is the live database. While a snapshot is in flight its FULL_NEEDED flag does
      not count, since landing clears it: then the file's modification time decides. */
  predicate Chained(n: Node) {
    Modified(n) || (n.flight == Landed && FullNeeded(n)) ||
    (Landing(n).Some? && WithWal(Landing(n).value, n.wal) == Live(n))
  }

  lemma InvIsChained(n: Node)
    requires Inv(n)
    ensures Chained(n)
  {
    if Landing(n).Some? && Agrees(Landing(n).value, n.main, n.wal) {
      AgreeingFiles(Landing(n).value, n.main, n.wal);
    }
  }

  /** So it is in every reachable state. */
  lemma ChainInvariant(n: Node, es: seq<Event>)
    requires Initial(n) && Legal(n, es)
    ensures Chained(Run(n, es))
  {
    RunKeeps(n, es);
    InvIsChained(Run(n, es));
  }

  /** Every snapshot that lands holds the database exactly as it was when the
      snapshot was taken, whatever was applied, loaded or failed in between. */
  lemma SnapshotsAreFaithful(n: Node, pre: seq<Event>, t: nat, mid: seq<Event>)
    requires Initial(n) && Legal(n, pre + [Snapshot(t)] + mid) && Enabled(Run(n, pre + [Snapshot(t)] + mid), Finalized)
    requires forall i :: 0 <= i < |mid| ==> !mid[i].Snapshot?
    ensures var landed := Run(n, pre + [Snapshot(t)] + mid + [Finalized]);
            landed.stored == Some(Live(Run(n, pre))) && !landed.full
  {
    hide Inv, Initial, Enabled, Next, Run, Legal, Live;
    GoalIsStored(n, pre + [Snapshot(t)] + mid);
    RunSnoc(n, pre, Snapshot(t));
    GoalIsLive(Run(n, pre), t);
    RunAppend(n, pre + [Snapshot(t)], mid);
    GoalStays(Run(n, pre + [Snapshot(t)]), mid);
  }

  lemma GoalIsLive(n: Node, t: nat)
    ensures Next(n, Snapshot(t)).goal == Live(n)
  {
    hide Checkpoint, Latest;
  }

  lemma GoalIsStored(n: Node, es: seq<Event>)
    requires Initial(n) && Legal(n, es) && Enabled(Run(n, es), Finalized)
    ensures Run(n, es + [Finalized]).stored == Some(Run(n, es).goal)
    ensures !Run(n, es + [Finalized]).full
  {
    RunKeeps(n, es);
    RunSnoc(n, es, Finalized);
  }

  lemma {:induction false} GoalStays(n: Node, es: seq<Event>)
    requires forall i :: 0 <= i < |es| ==> !es[i].Snapshot?
    ensures Run(n, es).goal == n.goal
    decreases |es|
  {
    hide Checkpoint, Latest, WrittenPages;
    if es != [] { GoalStays(Next(n, es[0]), es[1..]); }
  }

  lemma {:induction false} RunAppend(n: Node, es: seq<Event>, fs: seq<Event>)
    ensures Run(n, es + fs) == Run(Run(n, es), fs)
    decreases |es|
  {
    hide Next;
    if es == [] {
      assert es + fs == fs;
    } else {
      assert (es + fs)[1..] == es[1..] + fs;
      RunAppend(Next(n, es[0]), es[1..], fs);
    }
  }

  lemma {:induction false} RunSnoc(n: Node, es: seq<Event>, e: Event)
    ensures Run(n, es + [e]) == Next(Run(n, es), e)
    decreases |es|
  {
    if es == [] {
      assert es + [e] == [e];
      assert [e][1..] == [];
    } else {
      assert (es + [e])[1..] == es[1..] + [e];
      RunSnoc(Next(n, es[0]), es[1..], e);
    }
  }

  /** The next snapshot is bound to be full, whatever snapshot may still land before it. */
  predicate BoundFull(n: Node) { Modified(n) || (n.flight == Landed && FullNeeded(n)) }

  /** Events between which no snapshot is taken and the database is not replaced by a stored one. */
  predicate Between(e: Event) { !e.Snapshot? && !e.Installed? && !e.Restarted? }

  predicate LoadsDb(e: Event) {
    e.Booted? || (e.Command? && (e.c.LoadDb? || e.c.LastChunk?))
  }

  /** A load is caught by the next snapshot whatever happens in between: if its flag is cleared by
      an older snapshot landing, the database file has still been modified since that snapshot
      recorded its time. The snapshot then taken is the whole live database. */
  lemma LoadSurvivesLanding(n: Node, load: Event, es: seq<Event>, t: nat)
    requires Inv(n) && LoadsDb(load) && Legal(Next(n, load), es) && forall i :: 0 <= i < |es| ==> Between(es[i])
    ensures var m := Run(Next(n, load), es);
            BoundFull(m) &&
            (m.flight == Landed ==> Snap(m, t).flight == FullCopy(Live(m)) && Snap(m, t).goal == Live(m))
  {
    hide Checkpoint, Latest, Overlay, Agrees;
    StepKeeps(n, load);
    StaysBound(Next(n, load), es);
  }

  lemma {:induction false} StaysBound(n: Node, es: seq<Event>)
    requires Inv(n) && BoundFull(n) && Legal(n, es) && forall i :: 0 <= i < |es| ==> Between(es[i])
    ensures BoundFull(Run(n, es))
    decreases |es|
  {
    hide Inv;
    if es != [] {
      StepKeeps(n, es[0]);
      StepStaysBound(n, es[0]);
      StaysBound(Next(n, es[0]), es[1..]);
    }
  }

  lemma StepStaysBound(n: Node, e: Event)
    requires Inv(n) && BoundFull(n) && Enabled(n, e) && Between(e)
    ensures BoundFull(Next(n, e))
  {
    hide Checkpoint, Latest, Overlay, Agrees, WrittenPages;
  }

  /** The node after a database was loaded past Raft, flagged, and written to. */
  function Loaded(n: Node, db: Db, t: nat, tx: seq<Frame>): Node {
    Next(Next(Next(n, Booted(db, t)), Flagged), Command(Exec(tx)))
  }

  /** A node that must take a full snapshot stores its live database and keeps it. */
  lemma FullSnapshotLands(n: Node, u: nat)
    requires n.flight == Landed && Forced(n)
    ensures Legal(n, [Snapshot(u), Persisted, Finalized])
    ensures Run(n, [Snapshot(u), Persisted, Finalized]).stored == Some(Live(n))
    ensures Live(Run(n, [Snapshot(u), Persisted, Finalized])) == Live(n)
  {
    hide Checkpoint, Latest;
    var s4 := Next(n, Snapshot(u));
    RunCons(Next(s4, Persisted), Finalized, []);
    RunCons(s4, Persisted, [Finalized]);
    RunCons(n, Snapshot(u), [Persisted, Finalized]);
  }

  /** Loading a database past Raft: once it is swapped in and flagged, the next snapshot to land
      stores it, with every write applied on top of it before that snapshot was taken. */
  lemma BootIsStored(n: Node, db: Db, t: nat, tx: seq<Frame>, u: nat)
    requires n.flight == Landed && WholeTransactions(tx)
    ensures var es := [Snapshot(u), Persisted, Finalized];
            Legal(Loaded(n, db, t, tx), es) && Run(Loaded(n, db, t, tx), es).stored == Some(WithWal(db, tx)) &&
            Live(Run(Loaded(n, db, t, tx), es)) == WithWal(db, tx)
  {
    hide Checkpoint, Legal, Run;
    assert [] + tx == tx && Live(Loaded(n, db, t, tx)) == WithWal(db, tx);
    FullSnapshotLands(Loaded(n, db, t, tx), u);
  }

  lemma RunCons(n: Node, e: Event, es: seq<Event>)
    ensures Run(n, [e] + es) == Run(Next(n, e), es)
    ensures Legal(n, [e] + es) <==> Enabled(n, e) && Legal(Next(n, e), es)
  {
    assert ([e] + es)[1..] == es;
  }

  // ------------------------------------------------- failing attempts

  /** If the snapshot in flight lands, it is the database as it was when the snapshot was taken. */
  predicate LandsRight(n: Node) { n.flight != Landed ==> Landing(n) == Some(n.goal) }

  /** Every snapshot from now on will be right. */
  ghost predicate Trustworthy(n: Node) {
    forall es :: Legal(n, es) ==> LandsRight(Run(n, es))
  }

  lemma InvIsTrustworthy(n: Node)
    requires Inv(n)
    ensures Trustworthy(n)
  {
    forall es | Legal(n, es) ensures LandsRight(Run(n, es)) {
      RunKeeps(n, es);
    }
  }

  /** When a failing attempt does harm. If the file change really altered something the stored
      snapshot lacks, and the WAL really holds something it lacks, then all later snapshots are
      right if and only if the failure was harmless in the sense above. */
  lemma FailureExact(n: Node, fault: Fault)
    requires Inv(n) && MayFail(n, fault)
    requires Modified(n) && n.stored.Some? ==> WithWal(n.stored.value, n.wal) != Live(n)
    requires fault.Busy? && n.wal != [] && n.stored.Some? ==> n.stored.value.pages != Live(n).pages
    ensures Trustworthy(SnapFails(n, fault)) <==> FailureHarmless(n, fault)
  {
    hide Trustworthy;
    if FailureHarmless(n, fault) {
      FailKeeps(n, fault);
      InvIsTrustworthy(SnapFails(n, fault));
    } else if Modified(n) {
      StaleBase(n, fault);
    } else {
      RewoundBase(n, fault.t);
    }
  }

  /** The modification that would have forced a full snapshot is forgotten: the next one is
      incremental, over a base that lacks it. */
  lemma StaleBase(n: Node, fault: Fault)
    requires Inv(n) && MayFail(n, fault) && Modified(n) && !FullNeeded(n)
    requires WithWal(n.stored.value, n.wal) != Live(n)
    ensures !Trustworthy(SnapFails(n, fault))
  {
    var m := SnapFails(n, fault);
    FaultKeepsLive(n, fault);
    SnapshotDir.ReplayTwice(n.main, n.wal);
    hide Checkpoint, WrittenPages, Snap, Trustworthy;
    assert m.wal == n.wal || m.wal == [];
    NextLanding(m);
    OneEvent(m, Snapshot(0));
    WrongOnce(m, [Snapshot(0)]);
  }

  lemma WrongOnce(n: Node, es: seq<Event>)
    requires Legal(n, es) && !LandsRight(Run(n, es))
    ensures !Trustworthy(n)
  {
  }

  /** What an incremental snapshot leads to. */
  lemma NextLanding(m: Node)
    requires !Forced(m) && EndsInCommit(m.wal)
    ensures var s := Snap(m, 0);
            s.flight != Landed && Landing(s) == Some(WithWal(m.stored.value, m.wal)) && s.goal == Live(m)
  {
    hide Checkpoint, Latest;
    if m.wal != [] { CompactionPreservesMeaning(m.stored.value, m.wal); }
  }

  lemma OneEvent(n: Node, e: Event)
    ensures Run(n, [e]) == Next(n, e) && (Legal(n, [e]) <==> Enabled(n, e))
  {
    assert [e][1..] == [];
  }

  /** A transaction that writes one page and leaves the database as large as can be. */
  function OnePage(p: u32): seq<Frame> { [Frame(p, 0xFFFF_FFFF, [])] }

  lemma OnePageWritten(db: Db, p: u32)
    ensures Checkpoint(db, OnePage(p)) == Db(db.pages[p := []], 0xFFFF_FFFF)
  {
    var f := Frame(p, 0xFFFF_FFFF, []);
    var none: map<u32, Page>, one: map<u32, Page> := map[], map[p := []];
    assert OnePage(p)[1..] == [];
    assert ReplayFrames(Replay(map[], map[], db.size), OnePage(p)) ==
           ReplayFrames(ReplayFrame(Replay(map[], map[], db.size), f), []);
    assert none + one == one && none[p := []] == one;
    assert db.pages + one == db.pages[p := []];
    assert Truncate(db.pages[p := []], 0xFFFF_FFFF) == db.pages[p := []];
  }

  /** The WAL was copied into the file and is started afresh: what it held is in neither the
      stored snapshot nor the next WAL. */
  lemma RewoundBase(n: Node, t: nat)
    requires Inv(n) && n.flight == Landed && n.wal != [] && !Forced(n)
    requires n.stored.value.pages != Live(n).pages
    ensures !Trustworthy(SnapFails(n, Busy(t)))
  {
    var m, b := SnapFails(n, Busy(t)), Live(n);
    var p := TellingPage(n.stored.value, b);
    hide Checkpoint, Snap, Trustworthy, Agrees, OnePage;
    assert OnePage(p) != [] && EndsInCommit(OnePage(p)) by { OnePageCommits(p); }
    var m1 := Next(m, Rewound(OnePage(p)));
    assert Live(m1) == Checkpoint(b, OnePage(p));
    NextLanding(m1);
    OneEvent(m1, Snapshot(0));
    RunCons(m, Rewound(OnePage(p)), [Snapshot(0)]);
    WrongOnce(m, [Rewound(OnePage(p))] + [Snapshot(0)]);
  }

  lemma OnePageCommits(p: u32)
    ensures OnePage(p) != [] && EndsInCommit(OnePage(p))
  {
  }

  /** Some transaction leaves databases with different pages different. */
  lemma TellingPage(a: Db, b: Db) returns (p: u32)
    requires a.pages != b.pages
    ensures Checkpoint(a, OnePage(p)) != Checkpoint(b, OnePage(p))
  {
    var q := Difference(a.pages, b.pages);
    p := if q == 0 then 1 else 0;
    hide Checkpoint;
    OnePageWritten(a, p);
    OnePageWritten(b, p);
    StillDiffer(a.pages, b.pages, p, q);
  }

  lemma Difference(a: map<u32, Page>, b: map<u32, Page>) returns (q: u32)
    requires a != b
    ensures !(q in a <==> q in b) || (q in a && a[q] != b[q])
  {
    if a.Keys == b.Keys {
      q :| q in a && a[q] != b[q];
    } else {
      q :| !(q in a <==> q in b);
    }
  }

  lemma StillDiffer(a: map<u32, Page>, b: map<u32, Page>, p: u32, q: u32)
    requires p != q && (!(q in a <==> q in b) || (q in a && a[q] != b[q]))
    ensures a[p := []] != b[p := []]
  {
    assert q in a[p := []] <==> q in a;
    assert q in b[p := []] <==> q in b;
    if q in a && q in b { assert a[p := []][q] == a[q] && b[p := []][q] == b[q]; }
  }

  /** A failing attempt never changes the live database. */
  lemma FaultKeepsLive(n: Node, fault: Fault)
    requires EndsInCommit(n.wal)
    ensures Live(SnapFails(n, fault)) == Live(n)
  {
    if fault.Halfway? {
      assert Agrees(n.main, n.main, n.wal);
      AgreesHalfway(n.main, n, fault.written);
      AgreeingFiles(n.main, WrittenPages(n.main, n.wal, fault.written), n.wal);
    }
    SnapshotDir.ReplayTwice(n.main, n.wal);
    hide Checkpoint, WrittenPages;
  }

  /** Such states are reachable: a chunked load sets no flag, so after one
      failing attempt the next snapshot is incremental over the wrong base. */
  lemma ChunkedLoadLost(n: Node, a: Db, b: Db, t: nat)
    requires Initial(n) && a != b
    ensures var s := Run(n, [Installed(a, t), Command(LastChunk(b, t))]);
            Legal(n, [Installed(a, t), Command(LastChunk(b, t))]) &&
            !FailureHarmless(s, Early) &&
            var m := SnapFails(s, Early);
            !Forced(m) && Live(m) == b && Land(Snap(m, t)).stored == Some(a)
  {
    var s1 := Next(n, Installed(a, t));
    RunCons(n, Installed(a, t), [Command(LastChunk(b, t))]);
    OneEvent(s1, Command(LastChunk(b, t)));
    assert [Installed(a, t)] + [Command(LastChunk(b, t))] == [Installed(a, t), Command(LastChunk(b, t))];
  }

  /** So are states in which an incremental snapshot fails because the WAL is busy after all of it
      was copied: some later snapshot is then wrong. */
  lemma BusyCheckpointLost(n: Node, a: Db, tx: seq<Frame>, t: nat)
    requires Initial(n) && tx != [] && WholeTransactions(tx) && Checkpoint(a, tx).pages != a.pages
    ensures var s := Run(n, [Installed(a, t), Command(Exec(tx))]);
            Legal(n, [Installed(a, t), Command(Exec(tx))]) &&
            !FailureHarmless(s, Busy(t)) && !Trustworthy(SnapFails(s, Busy(t)))
  {
    hide Checkpoint, Latest, Overlay;
    var s1 := Next(n, Installed(a, t));
    var s := Next(s1, Command(Exec(tx)));
    RunCons(n, Installed(a, t), [Command(Exec(tx))]);
    OneEvent(s1, Command(Exec(tx)));
    assert [Installed(a, t)] + [Command(Exec(tx))] == [Installed(a, t), Command(Exec(tx))];
    assert [] + tx == tx;
    StepKeeps(n, Installed(a, t));
    StepKeeps(s1, Command(Exec(tx)));
    hide Trustworthy;
    RewoundBase(s, t);
  }
}
