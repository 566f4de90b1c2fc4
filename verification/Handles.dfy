/** The lock of the snapshot store and the handles that hold it: one sink being
    written, or any number of snapshots being read. Handles are closed by threads
    that interleave; a handle marks itself closed before it gives the lock back. */
module Handles {

  datatype Lock = Lock(writerActive: bool, numReaders: int)

  /** An operation on the lock may be refused, or panic. */
  datatype Outcome = Ok(lock: Lock) | Conflict | Panic

  function Reading(l: Lock): Outcome {
    if l.writerActive then Conflict else Ok(l.(numReaders := l.numReaders + 1))
  }

  function DoneReading(l: Lock): Outcome {
    if l.numReaders - 1 < 0 then Panic else Ok(l.(numReaders := l.numReaders - 1))
  }

  function Writing(l: Lock): Outcome {
    if l.writerActive || l.numReaders > 0 then Conflict else Ok(l.(writerActive := true))
  }

  function DoneWriting(l: Lock): Outcome {
    if !l.writerActive then Panic else Ok(l.(writerActive := false))
  }

  function Upgrading(l: Lock): Outcome {
    if l.writerActive || l.numReaders > 1 then Conflict
    else if l.numReaders == 0 then Panic
    else Ok(Lock(true, 0))
  }

  class MultiRSW {
    var writerActive: bool
    var numReaders: int

    function View(): Lock
      reads this
    {
      Lock(writerActive, numReaders)
    }

    constructor ()
      ensures View() == Lock(false, 0)
    {
      writerActive, numReaders := false, 0;
    }

    method BeginRead() returns (ok: bool)
      modifies this
      ensures Reading(old(View())) == if ok then Ok(View()) else Conflict
      ensures !ok ==> View() == old(View())
    {
      if writerActive { return false; }
      numReaders := numReaders + 1;
      return true;
    }

    method EndRead()
      requires !DoneReading(View()).Panic?
      modifies this
      ensures Ok(View()) == DoneReading(old(View()))
    {
      numReaders := numReaders - 1;
    }

    method BeginWrite() returns (ok: bool)
      modifies this
      ensures Writing(old(View())) == if ok then Ok(View()) else Conflict
      ensures !ok ==> View() == old(View())
    {
      if writerActive || numReaders > 0 { return false; }
      writerActive := true;
      return true;
    }

    method EndWrite()
      requires !DoneWriting(View()).Panic?
      modifies this
      ensures Ok(View()) == DoneWriting(old(View()))
    {
      writerActive := false;
    }

    method UpgradeToWriter() returns (ok: bool)
      requires !Upgrading(View()).Panic?
      modifies this
      ensures Upgrading(old(View())) == if ok then Ok(View()) else Conflict
      ensures !ok ==> View() == old(View())
    {
      if writerActive || numReaders > 1 { return false; }
      writerActive, numReaders := true, 0;
      return true;
    }
  }

  /** A sink that holds the store's lock until it is closed or cancelled, once. */
  class LockingSink {
    const mrsw: MultiRSW
    var closed: bool

    constructor (m: MultiRSW)
      ensures mrsw == m && !closed
    {
      mrsw, closed := m, false;
    }

    /** Close and Cancel treat the lock alike. */
    method Close()
      requires closed || mrsw.writerActive
      modifies this, mrsw
      ensures closed && mrsw.numReaders == old(mrsw.numReaders)
      ensures mrsw.writerActive == (old(closed) && old(mrsw.writerActive))
    {
      if closed { return; }
      closed := true;
      mrsw.EndWrite();
    }
  }

  /** A snapshot that holds the store's lock until it is closed, once. */
  class LockingSnapshot {
    const mrsw: MultiRSW
    var closed: bool

    constructor (m: MultiRSW)
      ensures mrsw == m && !closed
    {
      mrsw, closed := m, false;
    }

    method Close()
      requires closed || mrsw.numReaders > 0
      modifies this, mrsw
      ensures closed && mrsw.writerActive == old(mrsw.writerActive)
      ensures mrsw.numReaders == old(mrsw.numReaders) - if old(closed) then 0 else 1
    {
      if closed { return; }
      closed := true;
      mrsw.EndRead();
    }
  }

  // ------------------------------------------------- the handles

  /** `Opening`: the lock is taken, the files are not open yet. `Closing`: marked closed, the lock not given
      back yet. */
  datatype Phase = Opening | Live | Closing | Gone

  datatype Store = Store(lock: Lock, sinks: map<nat, Phase>, snaps: map<nat, Phase>, panicked: bool)

  datatype Step =
    | Create(id: nat)
    | Created(id: nat, ok: bool)
    | CloseSink(id: nat)
    | SinkClosed(id: nat)
    | Open(id: nat)
    | Opened(id: nat, ok: bool)
    | CloseSnap(id: nat)
    | SnapClosed(id: nat)

  predicate Enabled(s: Store, e: Step) {
    match e
    case Create(id) => id !in s.sinks
    case Created(id, _) => id in s.sinks && s.sinks[id].Opening?
    case CloseSink(id) => id in s.sinks && !s.sinks[id].Opening?
    case SinkClosed(id) => id in s.sinks && s.sinks[id].Closing?
    case Open(id) => id !in s.snaps
    case Opened(id, _) => id in s.snaps && s.snaps[id].Opening?
    case CloseSnap(id) => id in s.snaps && !s.snaps[id].Opening?
    case SnapClosed(id) => id in s.snaps && s.snaps[id].Closing?
  }

  /** Give the lock back; a panic is recorded. */
  function Release(s: Store, o: Outcome): Store {
    if o.Ok? then s.(lock := o.lock) else s.(panicked := true)
  }

  function Do(s: Store, e: Step): Store
    requires Enabled(s, e)
  {
    match e
    case Create(id) =>
      var o := Writing(s.lock);
      if o.Ok? then s.(lock := o.lock, sinks := s.sinks[id := Opening]) else s
    case Created(id, ok) =>
      if ok then s.(sinks := s.sinks[id := Live]) else Release(s.(sinks := s.sinks[id := Gone]), DoneWriting(s.lock))
    case CloseSink(id) => if s.sinks[id].Live? then s.(sinks := s.sinks[id := Closing]) else s
    case SinkClosed(id) => Release(s.(sinks := s.sinks[id := Gone]), DoneWriting(s.lock))
    case Open(id) =>
      var o := Reading(s.lock);
      if o.Ok? then s.(lock := o.lock, snaps := s.snaps[id := Opening]) else s
    case Opened(id, ok) =>
      if ok then s.(snaps := s.snaps[id := Live]) else Release(s.(snaps := s.snaps[id := Gone]), DoneReading(s.lock))
    case CloseSnap(id) => if s.snaps[id].Live? then s.(snaps := s.snaps[id := Closing]) else s
    case SnapClosed(id) => Release(s.(snaps := s.snaps[id := Gone]), DoneReading(s.lock))
  }

  /** The handles that hold the lock. */
  function Holders(hs: map<nat, Phase>): set<nat> {
    set id | id in hs && !hs[id].Gone?
  }

  /** The lock says exactly what the handles say. */
  predicate Agrees(s: Store) {
    !s.panicked && |Holders(s.sinks)| == (if s.lock.writerActive then 1 else 0) &&
    |Holders(s.snaps)| == s.lock.numReaders && (s.lock.writerActive ==> s.lock.numReaders == 0)
  }

  /** One handle changing its phase adds itself to the holders, leaves them, or stays. */
  lemma HoldersAfter(hs: map<nat, Phase>, id: nat, p: Phase)
    ensures var was := if id in Holders(hs) then 1 else 0;
            |Holders(hs[id := p])| == |Holders(hs)| - was + (if p.Gone? then 0 else 1) && |Holders(hs)| >= was
  {
    var a := Holders(hs);
    assert Holders(hs[id := p]) == if p.Gone? then a - {id} else a + {id};
    hide Holders;
    Sizes(a, id);
  }

  lemma Sizes(a: set<nat>, x: nat)
    ensures |a + {x}| == (if x in a then |a| else |a| + 1) && |a - {x}| == if x in a then |a| - 1 else |a|
  {
    if x in a {
      assert a + {x} == a;
    } else {
      assert a - {x} == a;
    }
  }

  lemma StepKeeps(s: Store, e: Step)
    requires Agrees(s) && Enabled(s, e)
    ensures Agrees(Do(s, e))
  {
    var hs := if e.Create? || e.Created? || e.CloseSink? || e.SinkClosed? then s.sinks else s.snaps;
    HoldersAfter(hs, e.id, Opening);
    HoldersAfter(hs, e.id, Live);
    HoldersAfter(hs, e.id, Closing);
    HoldersAfter(hs, e.id, Gone);
    assert e.id in Holders(hs) <==> e.id in hs && !hs[e.id].Gone?;
    hide Holders;
  }

  predicate Legal(s: Store, run: seq<Step>)
    decreases |run|
  {
    run == [] || (Enabled(s, run[0]) && Legal(Do(s, run[0]), run[1..]))
  }

  function After(s: Store, run: seq<Step>): Store
    requires Legal(s, run)
    decreases |run|
  {
    if run == [] then s else After(Do(s, run[0]), run[1..])
  }

  lemma {:induction false} RunKeeps(s: Store, run: seq<Step>)
    requires Agrees(s) && Legal(s, run)
    ensures Agrees(After(s, run))
    decreases |run|
  {
    hide Agrees, Enabled, Do;
    if run != [] {
      StepKeeps(s, run[0]);
      RunKeeps(Do(s, run[0]), run[1..]);
    }
  }

  /** Over all interleavings, with repeated closes and failing opens, the lock never panics; it
      has a writer exactly while one sink holds it, as many readers as snapshots hold it, and never both. */
  lemma LockAgreesWithHandles(run: seq<Step>)
    requires Legal(Store(Lock(false, 0), map[], map[], false), run)
    ensures var s := After(Store(Lock(false, 0), map[], map[], false), run);
            !s.panicked &&
            (s.lock.writerActive <==> exists id :: Holders(s.sinks) == {id}) &&
            (!s.lock.writerActive <==> Holders(s.sinks) == {}) &&
            s.lock.numReaders == |Holders(s.snaps)| &&
            !(Holders(s.sinks) != {} && Holders(s.snaps) != {})
  {
    var empty := Store(Lock(false, 0), map[], map[], false);
    assert Holders(empty.sinks) == {};
    RunKeeps(empty, run);
    var s := After(empty, run);
    hide Holders, Legal, After;
    if s.lock.writerActive { Singleton(Holders(s.sinks)); }
  }

  lemma Singleton(a: set<nat>)
    requires |a| == 1
    ensures exists x :: a == {x}
  {
    var x :| x in a;
    assert |a - {x}| == 0;
    assert a == {x};
  }

  /** Every lock holder can let go: closing a handle that holds the lock always gives it back. */
  lemma CloseGivesBack(s: Store, id: nat)
    requires Agrees(s) && id in s.sinks && s.sinks[id].Live?
    ensures Legal(s, [CloseSink(id), SinkClosed(id), CloseSink(id)])
    ensures var t := After(s, [CloseSink(id), SinkClosed(id), CloseSink(id)]);
            Agrees(t) && !t.lock.writerActive && Writing(t.lock).Ok?
  {
    var run := [CloseSink(id), SinkClosed(id), CloseSink(id)];
    var s1 := Do(s, run[0]);
    var s2 := Do(s1, SinkClosed(id));
    assert run[1..] == [SinkClosed(id), CloseSink(id)] && run[1..][1..] == [CloseSink(id)] && run[1..][1..][1..] == [];
    StepKeeps(s, run[0]);
    StepKeeps(s1, SinkClosed(id));
    assert id in Holders(s.sinks);
    HoldersAfter(s.sinks, id, Gone);
    assert Legal(s2, [CloseSink(id)]) && After(s2, [CloseSink(id)]) == s2;
    assert Legal(s1, run[1..]) && After(s1, run[1..]) == s2;
  }
}
