/** The batching queue and the consumer that executes what it delivers. The writer
    holding the lock, the event loop and the consumer are separate threads; their
    steps interleave freely. A request is identified with the writes merged into it. */
module Queue {
  import opened Options

  /** One call of Write. */
  datatype Item = Item(seqNum: int, objects: seq<nat>, flush: Option<nat>)

  datatype Request = Request(seqNum: int, objects: seq<nat>, flushes: seq<nat>)

  // ------------------------------------------------- merging

  function Objects(qs: seq<Item>): seq<nat>
    decreases |qs|
  {
    if qs == [] then [] else Objects(qs[..|qs| - 1]) + qs[|qs| - 1].objects
  }

  function Flushes(qs: seq<Item>): seq<nat>
    decreases |qs|
  {
    if qs == [] then []
    else Flushes(qs[..|qs| - 1]) + if qs[|qs| - 1].flush.Some? then [qs[|qs| - 1].flush.value] else []
  }

  method MergeQueued(qs: seq<Item>) returns (o: Option<Request>)
    ensures o.None? <==> qs == []
    ensures o.Some? ==> o.value.objects == Objects(qs) && o.value.flushes == Flushes(qs)
    ensures o.Some? ==> (forall i :: 0 <= i < |qs| ==> qs[i].seqNum <= o.value.seqNum) &&
                        (exists i :: 0 <= i < |qs| && qs[i].seqNum == o.value.seqNum)
  {
    if qs == [] { return None; }
    var seqNum, objects, flushes := qs[0].seqNum, [], [];
    ghost var at := 0;
    for i := 0 to |qs|
      invariant objects == Objects(qs[..i]) && flushes == Flushes(qs[..i])
      invariant forall j :: 0 <= j < i ==> qs[j].seqNum <= seqNum
      invariant at < |qs| && qs[at].seqNum == seqNum
    {
      assert qs[..i + 1][..i] == qs[..i];
      if seqNum < qs[i].seqNum { seqNum, at := qs[i].seqNum, i; }
      objects := objects + qs[i].objects;
      if qs[i].flush.Some? { flushes := flushes + [qs[i].flush.value]; }
    }
    assert qs[..|qs|] == qs;
    return Some(Request(seqNum, objects, flushes));
  }

  lemma MergeIsHomomorphic(a: seq<Item>, b: seq<Item>)
    ensures Objects(a + b) == Objects(a) + Objects(b) && Flushes(a + b) == Flushes(a) + Flushes(b)
  {
    ObjectsAppend(a, b);
    FlushesAppend(a, b);
  }

  lemma Associates<T>(a: seq<T>, b: seq<T>, c: seq<T>)
    ensures (a + b) + c == a + (b + c)
  {
  }

  lemma {:induction false} ObjectsAppend(a: seq<Item>, b: seq<Item>)
    ensures Objects(a + b) == Objects(a) + Objects(b)
    decreases |b|
  {
    if b == [] {
      assert a + b == a;
    } else {
      ObjectsAppend(a, b[..|b| - 1]);
      assert (a + b)[..|a + b| - 1] == a + b[..|b| - 1];
      Associates(Objects(a), Objects(b[..|b| - 1]), b[|b| - 1].objects);
    }
  }

  lemma {:induction false} FlushesAppend(a: seq<Item>, b: seq<Item>)
    ensures Flushes(a + b) == Flushes(a) + Flushes(b)
    decreases |b|
  {
    if b == [] {
      assert a + b == a;
    } else {
      FlushesAppend(a, b[..|b| - 1]);
      assert (a + b)[..|a + b| - 1] == a + b[..|b| - 1];
    }
  }

  // ------------------------------------------------- the two threads

  datatype Timer = Idle | Running | Fired

  /** `writer` holds the lock and waits to enqueue; `sending` says that the event loop is
      blocked handing over everything pending. `done` says that Close was called, `stopped`
      that the event loop has ended. `written` records the calls of Write. */
  datatype Loop = Loop(maxSize: nat, batchSize: int, first: nat, seqNum: int, writer: Option<Item>, batch: seq<Item>,
                       pending: seq<Item>, timer: Timer, sending: bool, sendCh: Option<seq<Item>>,
                       done: bool, stopped: bool, written: seq<Item>)

  /** `delivered` are the requests dealt with, `runs` which of them were executed, in order
      and with repetitions, `closed` the flush channels closed. */
  datatype Consumer = Consumer(current: Option<seq<Item>>, executed: bool, delivered: seq<seq<Item>>,
                               runs: seq<nat>, seqNum: int, closed: seq<nat>)

  datatype State = State(loop: Loop, consumer: Consumer)

  datatype Step =
    | BeginWrite(objects: seq<nat>, flush: Option<nat>)
    | Enqueue
    | Receive
    | Expire
    | Timeout
    | Flush
    | Close
    | Stop
    | Send
    | Take
    | Attempt(applied: bool, ok: bool)
    | Finish

  /** The write next in line for the event loop; a channel without buffer takes it from the writer. */
  function Waiting(l: Loop): seq<Item> {
    l.batch + if l.writer.Some? then [l.writer.value] else []
  }

  predicate LoopEnabled(l: Loop, e: Step) {
    match e
    case BeginWrite(_, _) => l.writer.None?
    case Enqueue => l.writer.Some? && |l.batch| < l.maxSize
    case Receive => !l.stopped && !l.sending && Waiting(l) != []
    case Expire => l.timer.Running?
    case Timeout => !l.stopped && !l.sending && l.timer.Fired?
    case Flush => !l.stopped && !l.sending
    case Close => true
    case Stop => l.done && !l.stopped && !l.sending
    case Send => l.sending && l.sendCh.None?
    case Take => l.sendCh.Some?
    case _ => true
  }

  predicate ConsumerEnabled(c: Consumer, e: Step) {
    match e
    case Take => c.current.None?
    case Attempt(applied, ok) => c.current.Some? && !c.executed && Objects(c.current.value) != [] && (ok ==> applied)
    case Finish => c.current.Some? && (c.executed || Objects(c.current.value) == [])
    case _ => true
  }

  predicate Enabled(s: State, e: Step) { LoopEnabled(s.loop, e) && ConsumerEnabled(s.consumer, e) }

  function Received(l: Loop): Loop
    requires Waiting(l) != []
  {
    var pending := l.pending + [Waiting(l)[0]];
    var full := |pending| == l.batchSize;
    l.(batch := if l.batch == [] then [] else l.batch[1..], writer := if l.batch == [] then None else l.writer,
       pending := pending, sending := full,
       timer := if full then Idle else if |pending| == 1 then Running else l.timer)
  }

  /** Hand over what is pending, if anything. */
  function WriteOut(l: Loop): Loop { l.(timer := Idle, sending := l.pending != []) }

  function LastSeq(items: seq<Item>): int {
    if items == [] then 0 else items[|items| - 1].seqNum
  }

  function Finished(c: Consumer): Consumer
    requires c.current.Some?
  {
    Consumer(None, false, c.delivered + [c.current.value], c.runs, LastSeq(c.current.value),
      c.closed + Flushes(c.current.value))
  }

  function LoopStep(l: Loop, e: Step): Loop
    requires LoopEnabled(l, e)
  {
    match e
    case BeginWrite(objects, flush) =>
      var item := Item(l.seqNum + 1, objects, flush);
      l.(seqNum := l.seqNum + 1, writer := Some(item), written := l.written + [item])
    case Enqueue => l.(writer := None, batch := l.batch + [l.writer.value])
    case Receive => Received(l)
    case Expire => l.(timer := Fired)
    case Timeout => WriteOut(l)
    case Flush => WriteOut(l)
    case Close => l.(done := true)
    case Stop => l.(timer := Idle, stopped := true)
    case Send => l.(sendCh := Some(l.pending), pending := [], sending := false)
    case Take => l.(sendCh := None)
    case _ => l
  }

  function Tried(c: Consumer, applied: bool, ok: bool): Consumer {
    c.(executed := ok, runs := if applied then c.runs + [|c.delivered|] else c.runs)
  }

  function Do(s: State, e: Step): State
    requires Enabled(s, e)
  {
    var l, c := s.loop, s.consumer;
    match e
    case Take => State(LoopStep(l, Take), c.(current := l.sendCh, executed := false))
    case Attempt(applied, ok) => s.(consumer := Tried(c, applied, ok))
    case Finish => s.(consumer := Finished(c))
    case _ => s.(loop := LoopStep(l, e))
  }

  // ------------------------------------------------- the invariant

  function Flat(gs: seq<seq<Item>>): seq<Item>
    decreases |gs|
  {
    if gs == [] then [] else Flat(gs[..|gs| - 1]) + gs[|gs| - 1]
  }

  function InFlight(s: State): seq<Item> {
    (if s.consumer.current.Some? then s.consumer.current.value else []) +
    (if s.loop.sendCh.Some? then s.loop.sendCh.value else [])
  }

  /** Nothing written is lost, doubled or overtaken. */
  predicate Conserved(s: State) {
    Flat(s.consumer.delivered) + InFlight(s) + s.loop.pending + Waiting(s.loop) == s.loop.written
  }

  predicate NumberedFrom(items: seq<Item>, first: int) {
    forall i :: 0 <= i < |items| ==> items[i].seqNum == first + i + 1
  }

  /** Until the queue is closed, whatever is pending has a live timer, or is being sent. */
  predicate TimerInv(l: Loop) {
    (l.pending == [] ==> l.timer.Idle? && !l.sending) &&
    (if l.stopped then l.timer.Idle? && !l.sending && l.done else l.pending != [] ==> (l.sending <==> l.timer.Idle?)) &&
    (l.batchSize >= 1 && !l.sending ==> |l.pending| < l.batchSize)
  }

  predicate LoopInv(l: Loop) {
    NumberedFrom(l.written, l.first) && l.seqNum == l.first + |l.written| && |l.batch| <= l.maxSize &&
    (l.sendCh.Some? ==> l.sendCh.value != []) && TimerInv(l)
  }

  predicate Sorted(ns: seq<nat>) {
    forall i, j :: 0 <= i < j < |ns| ==> ns[i] <= ns[j]
  }

  predicate ConsumerInv(c: Consumer, first: nat) {
    (c.current.Some? ==> c.current.value != []) &&
    (c.current.None? ==> !c.executed) &&
    Sorted(c.runs) && (forall g :: g in c.runs ==> g < |c.delivered| || (g == |c.delivered| && c.current.Some?)) &&
    (c.executed ==> |c.delivered| in c.runs) &&
    (forall g :: 0 <= g < |c.delivered| && Objects(c.delivered[g]) != [] ==> g in c.runs) &&
    (c.delivered == [] ==> c.seqNum <= first) &&
    (c.delivered != [] ==>
       c.delivered[|c.delivered| - 1] != [] && c.seqNum == LastSeq(c.delivered[|c.delivered| - 1])) &&
    c.closed == Flushes(Flat(c.delivered))
  }

  predicate Inv(s: State) {
    Conserved(s) && LoopInv(s.loop) && ConsumerInv(s.consumer, s.loop.first)
  }

  lemma FlatSnoc(gs: seq<seq<Item>>, g: seq<Item>)
    ensures Flat(gs + [g]) == Flat(gs) + g
  {
    assert (gs + [g])[..|gs|] == gs;
  }

  lemma Regroup<T>(d: seq<T>, f: seq<T>, p: seq<T>, x: seq<T>, w: seq<T>)
    ensures d + f + (p + x) + w == d + f + p + (x + w)
    ensures d + (f + p) + [] + w == d + f + p + w
    ensures d + f + p + (w + x) == (d + f + p + w) + x
    ensures (d + f) + p + w + x == d + (f + p) + w + x
  {
  }

  lemma WriteKeepsOrder(s: State, e: Step)
    requires Conserved(s) && Enabled(s, e) && e.BeginWrite?
    ensures Conserved(Do(s, e))
  {
    hide Flat;
    var t, w := Do(s, e), Waiting(s.loop);
    Regroup(Flat(s.consumer.delivered), InFlight(s), s.loop.pending, [t.loop.writer.value], w);
    assert Waiting(t.loop) == w + [t.loop.writer.value];
  }

  lemma ReceiveKeepsOrder(s: State)
    requires Conserved(s) && Enabled(s, Receive)
    ensures Conserved(Do(s, Receive))
  {
    hide Flat;
    var t, w := Do(s, Receive), Waiting(s.loop);
    Regroup(Flat(s.consumer.delivered), InFlight(s), s.loop.pending, [w[0]], Waiting(t.loop));
    assert [w[0]] + Waiting(t.loop) == w;
  }

  lemma SendKeepsOrder(s: State)
    requires Conserved(s) && Enabled(s, Send)
    ensures Conserved(Do(s, Send))
  {
    hide Flat, Waiting;
    var t := Do(s, Send);
    Regroup(Flat(s.consumer.delivered), InFlight(s), s.loop.pending, [], Waiting(s.loop));
    assert Waiting(t.loop) == Waiting(s.loop) by { SameWaiting(s.loop, t.loop); }
    assert InFlight(t) == InFlight(s) + s.loop.pending;
  }

  lemma SameWaiting(l: Loop, m: Loop)
    requires m.batch == l.batch && m.writer == l.writer
    ensures Waiting(m) == Waiting(l)
  {
  }

  lemma FinishKeepsOrder(s: State)
    requires Conserved(s) && Enabled(s, Finish)
    ensures Conserved(Do(s, Finish))
  {
    hide Objects, Flushes, Waiting;
    var t, d, g := Do(s, Finish), Flat(s.consumer.delivered), s.consumer.current.value;
    FlatSnoc(s.consumer.delivered, g);
    hide Flat;
    assert InFlight(s) == g + InFlight(t);
    assert (d + g) + InFlight(t) == d + InFlight(s);
  }

  lemma TakeKeepsOrder(s: State)
    requires Conserved(s) && Enabled(s, Take)
    ensures Conserved(Do(s, Take))
  {
    hide Flat;
    assert InFlight(Do(s, Take)) == InFlight(s);
  }

  lemma EnqueueKeepsOrder(s: State)
    requires Conserved(s) && Enabled(s, Enqueue)
    ensures Conserved(Do(s, Enqueue))
  {
    hide Flat;
    assert Waiting(Do(s, Enqueue).loop) == Waiting(s.loop);
  }

  lemma StepKeepsOrder(s: State, e: Step)
    requires Conserved(s) && Enabled(s, e)
    ensures Conserved(Do(s, e))
  {
    hide Flat, Objects, Flushes;
    match e
    case BeginWrite(_, _) => WriteKeepsOrder(s, e);
    case Enqueue => EnqueueKeepsOrder(s);
    case Receive => ReceiveKeepsOrder(s);
    case Send => SendKeepsOrder(s);
    case Take => TakeKeepsOrder(s);
    case Finish => FinishKeepsOrder(s);
    case _ =>
  }

  lemma StepKeepsLoop(s: State, e: Step)
    requires LoopInv(s.loop) && Enabled(s, e)
    ensures LoopInv(Do(s, e).loop)
  {
    hide Objects, Flushes;
  }

  lemma StepKeepsConsumer(s: State, e: Step)
    requires LoopInv(s.loop) && ConsumerInv(s.consumer, s.loop.first) && Enabled(s, e)
    ensures ConsumerInv(Do(s, e).consumer, Do(s, e).loop.first)
  {
    hide Objects, Flushes, Flat;
    var c := s.consumer;
    if e.Finish? { FinishKeeps(c, s.loop.first); }
    if e.Attempt? && e.applied {
      assert forall g :: g in c.runs + [|c.delivered|] <==> g in c.runs || g == |c.delivered|;
      assert forall i :: 0 <= i < |c.runs| ==> c.runs[i] in c.runs;
    }
  }

  lemma FinishKeeps(c: Consumer, first: nat)
    requires ConsumerInv(c, first) && c.current.Some? && (c.executed || Objects(c.current.value) == [])
    ensures ConsumerInv(Finished(c), first)
  {
    hide Objects, Flushes, Flat;
    FlatSnoc(c.delivered, c.current.value);
    MergeIsHomomorphic(Flat(c.delivered), c.current.value);
  }

  lemma StepKeeps(s: State, e: Step)
    requires Inv(s) && Enabled(s, e)
    ensures Inv(Do(s, e))
  {
    hide LoopInv, ConsumerInv, Conserved;
    StepKeepsOrder(s, e);
    StepKeepsLoop(s, e);
    StepKeepsConsumer(s, e);
  }

  // ------------------------------------------------- whole runs

  predicate Init(s: State) {
    var l, c := s.loop, s.consumer;
    l.seqNum == l.first && l.writer.None? && l.batch == [] && l.pending == [] && l.timer.Idle? && !l.sending &&
    l.sendCh.None? && !l.done && !l.stopped && l.written == [] && c == Consumer(None, false, [], [], 0, [])
  }

  predicate Legal(s: State, run: seq<Step>)
    decreases |run|
  {
    run == [] || (Enabled(s, run[0]) && Legal(Do(s, run[0]), run[1..]))
  }

  function After(s: State, run: seq<Step>): State
    requires Legal(s, run)
    decreases |run|
  {
    if run == [] then s else After(Do(s, run[0]), run[1..])
  }

  lemma {:induction false} RunKeeps(s: State, run: seq<Step>)
    requires Inv(s) && Legal(s, run)
    ensures Inv(After(s, run))
    decreases |run|
  {
    hide Inv, Enabled, Do, LoopStep;
    if run != [] {
      StepKeeps(s, run[0]);
      RunKeeps(Do(s, run[0]), run[1..]);
    }
  }

  lemma Reachable(s: State, run: seq<Step>)
    requires Init(s) && Legal(s, run)
    ensures Inv(After(s, run))
  {
    assert Inv(s);
    RunKeeps(s, run);
  }

  /** The queue delivers exactly what was written, in the order of strictly increasing sequence
      numbers, but for what is still on its way; and until it is closed nothing pending lacks a
      live timer. */
  lemma QueueConserves(s: State, run: seq<Step>)
    requires Init(s) && Legal(s, run)
    ensures var t := After(s, run);
            Objects(Flat(t.consumer.delivered)) + Objects(InFlight(t)) +
              Objects(t.loop.pending) + Objects(Waiting(t.loop)) == Objects(t.loop.written) &&
            (forall i, j :: 0 <= i < j < |t.loop.written| ==> t.loop.written[i].seqNum < t.loop.written[j].seqNum) &&
            (t.loop.pending != [] && !t.loop.stopped ==> t.loop.sending || !t.loop.timer.Idle?) &&
            (t.loop.stopped ==> t.loop.done)
  {
    Reachable(s, run);
    hide Legal, After, ConsumerInv, Init;
    var t := After(s, run);
    var d, f, p := Flat(t.consumer.delivered), InFlight(t), t.loop.pending;
    hide Flat, InFlight, Waiting, Objects;
    MergeIsHomomorphic(d, f);
    MergeIsHomomorphic(d + f, p);
    MergeIsHomomorphic(d + f + p, Waiting(t.loop));
  }

  lemma {:induction false} InFlat(gs: seq<seq<Item>>, i: nat) returns (g: nat, k: nat)
    requires i < |Flat(gs)|
    ensures g < |gs| && k < |gs[g]| && gs[g][k] == Flat(gs)[i]
    decreases |gs|
  {
    var rest := gs[..|gs| - 1];
    if i < |Flat(rest)| {
      g, k := InFlat(rest, i);
    } else {
      g, k := |gs| - 1, i - |Flat(rest)|;
    }
  }

  lemma {:induction false} SomeObjects(items: seq<Item>, k: nat)
    requires k < |items| && items[k].objects != []
    ensures Objects(items) != []
    decreases |items|
  {
    if k < |items| - 1 { SomeObjects(items[..|items| - 1], k); }
  }

  /** The number the service reports covers exactly the writes of the requests dealt with. */
  lemma ReportedNumber(s: State)
    requires Inv(s)
    ensures s.consumer.delivered != [] ==> s.consumer.seqNum == s.loop.first + |Flat(s.consumer.delivered)|
    ensures |Flat(s.consumer.delivered)| <= |s.loop.written|
    ensures Flat(s.consumer.delivered) == s.loop.written[..|Flat(s.consumer.delivered)|]
  {
    hide Objects, Flushes, TimerInv;
    var ds := s.consumer.delivered;
    var d := Flat(ds);
    assert d <= s.loop.written;
    if ds != [] {
      assert d[|d| - 1] == ds[|ds| - 1][|ds[|ds| - 1]| - 1];
      assert d[|d| - 1] == s.loop.written[|d| - 1];
    }
  }

  /** Once the service reports number `n`, every write numbered up to `n` has been executed
      at least once, and executions never went back to an earlier request. */
  lemma ReportedMeansExecuted(s: State, run: seq<Step>, i: nat)
    requires Init(s) && Legal(s, run)
    requires i < |After(s, run).loop.written| && After(s, run).loop.written[i].seqNum <= After(s, run).consumer.seqNum
    ensures var c, w := After(s, run).consumer, After(s, run).loop.written[i];
            Sorted(c.runs) &&
            exists g :: 0 <= g < |c.delivered| && w in c.delivered[g] && (w.objects != [] ==> g in c.runs)
  {
    Reachable(s, run);
    hide Legal, After, Init;
    var t := After(s, run);
    ReportedNumber(t);
    assert t.loop.written[i].seqNum == t.loop.first + i + 1;
    hide Conserved, LoopInv, Objects, Flushes, Flat;
    var g, k := InFlat(t.consumer.delivered, i);
    if t.loop.written[i].objects != [] { SomeObjects(t.consumer.delivered[g], k); }
  }

  /** Flush channels are closed in the order of their writes, each with the one request that
      carries it: none twice, if no two writes share one. */
  lemma FlushedOnce(s: State, run: seq<Step>)
    requires Init(s) && Legal(s, run)
    ensures var t := After(s, run);
            t.consumer.closed <= Flushes(t.loop.written) && t.consumer.closed == Flushes(Flat(t.consumer.delivered)) &&
            (Distinct(Flushes(t.loop.written)) ==> Distinct(t.consumer.closed))
  {
    Reachable(s, run);
    hide Legal, After, Init;
    var t := After(s, run);
    ReportedNumber(t);
    var d := Flat(t.consumer.delivered);
    hide Conserved, LoopInv, Objects, Flat;
    MergeIsHomomorphic(d, t.loop.written[|d|..]);
    assert d + t.loop.written[|d|..] == t.loop.written;
  }

  predicate Distinct(ns: seq<nat>) {
    forall i, j :: 0 <= i < j < |ns| ==> ns[i] != ns[j]
  }

  /** In a request made of consecutive writes the largest number is that of the last write. */
  lemma RequestNumber(items: seq<Item>, base: int, r: Request)
    requires items != [] && NumberedFrom(items, base)
    requires forall i :: 0 <= i < |items| ==> items[i].seqNum <= r.seqNum
    requires exists i :: 0 <= i < |items| && items[i].seqNum == r.seqNum
    ensures r.seqNum == LastSeq(items)
  {
    assert items[|items| - 1].seqNum <= r.seqNum;
  }

  /** Every request in the consumer's hands is made of consecutive writes. */
  lemma CurrentIsNumbered(s: State)
    requires Inv(s) && s.consumer.current.Some?
    ensures NumberedFrom(s.consumer.current.value, s.consumer.current.value[0].seqNum - 1)
  {
    hide Objects, Flushes, TimerInv, Flat;
    var d, g, w := Flat(s.consumer.delivered), s.consumer.current.value, s.loop.written;
    assert d + g <= w;
    forall i | 0 <= i < |g| ensures g[i].seqNum == s.loop.first + |d| + i + 1 {
      assert g[i] == (d + g)[|d| + i] == w[|d| + i];
    }
  }

  // ------------------------------------------------- no stall

  predicate Drained(s: State) {
    s.loop.pending == [] && Waiting(s.loop) == [] && InFlight(s) == []
  }

  /** Steps that need no caller: no write, no flush and no close. */
  predicate Internal(e: Step) { !e.BeginWrite? && !e.Flush? && !e.Close? }

  /** An attempt at executing a request that is not reported to succeed. */
  predicate FailedTry(e: Step) { e.Attempt? && !e.ok }

  function Work(s: State): nat {
    var l, c := s.loop, s.consumer;
    (if l.writer.Some? then 11 else 0) + 9 * |l.batch| + 6 * |l.pending| +
    (match l.timer case Running => 2 case Fired => 1 case Idle => 0) + (if l.sendCh.Some? then 3 else 0) +
    (if c.current.None? then 0 else if c.executed then 1 else 2)
  }

  /** Every step of the threads themselves gets work done, but for a try that fails. */
  lemma EveryStepWorks(s: State, e: Step)
    requires Inv(s) && !s.loop.done && Enabled(s, e) && Internal(e)
    ensures !Do(s, e).loop.done
    ensures Work(Do(s, e)) + (if FailedTry(e) then 0 else 1) <= Work(s)
  {
    hide Conserved, Objects, Flushes, Flat, NumberedFrom, Sorted;
  }

  /** Unless everything written is dealt with, some thread can move without outside help. */
  lemma CanMove(s: State) returns (e: Step)
    requires Inv(s) && !s.loop.done && !Drained(s)
    ensures Enabled(s, e) && Internal(e) && !FailedTry(e)
  {
    hide Conserved;
    var l, c := s.loop, s.consumer;
    if c.current.Some? {
      e := if c.executed || Objects(c.current.value) == [] then Finish else Attempt(true, true);
    } else if l.sendCh.Some? {
      e := Take;
    } else if l.sending {
      e := Send;
    } else if Waiting(l) != [] {
      e := Receive;
    } else if l.timer.Running? {
      e := Expire;
    } else {
      e := Timeout;
    }
  }

  /** The steps of a run that are not failing tries. */
  function Progress(run: seq<Step>): nat
    decreases |run|
  {
    if run == [] then 0 else (if FailedTry(run[0]) then 0 else 1) + Progress(run[1..])
  }

  predicate AllInternal(run: seq<Step>) { forall i :: 0 <= i < |run| ==> Internal(run[i]) }

  lemma {:induction false} RunsWork(s: State, run: seq<Step>)
    requires Inv(s) && !s.loop.done && Legal(s, run) && AllInternal(run)
    ensures var t := After(s, run);
            Inv(t) && !t.loop.done && Work(t) + Progress(run) <= Work(s) && t.loop.written == s.loop.written
    decreases |run|
  {
    hide Inv, Enabled, Work;
    if run != [] {
      StepKeeps(s, run[0]);
      EveryStepWorks(s, run[0]);
      assert Do(s, run[0]).loop.written == s.loop.written;
      hide Do;
      RunsWork(Do(s, run[0]), run[1..]);
    }
  }

  /** Left to themselves the threads cannot stall, whichever of them moves when: every run of
      theirs makes at most `Work(s)` steps besides failing tries, and where no step is left but
      failing tries everything written has been delivered, executed and reported. */
  lemma NoStall(s: State, run: seq<Step>)
    requires Inv(s) && !s.loop.done && Legal(s, run) && AllInternal(run)
    ensures Progress(run) <= Work(s)
    ensures var t := After(s, run);
            (forall e :: Enabled(t, e) && Internal(e) ==> FailedTry(e)) ==>
              Drained(t) && Flat(t.consumer.delivered) == s.loop.written
  {
    RunsWork(s, run);
    hide Legal, After, Enabled, Internal, FailedTry, Work;
    var t := After(s, run);
    if !Drained(t) {
      var e := CanMove(t);
    } else {
      hide LoopInv, ConsumerInv;
    }
  }

  // ------------------------------------------------- the code

  class BatchQueue {
    const maxSize: nat
    const batchSize: int
    ghost const first: nat
    var seqNum: int
    var blocked: Option<Item>
    var batchCh: seq<Item>
    var queued: seq<Item>
    var timer: Timer
    var sending: bool
    var sendCh: Option<seq<Item>>
    var done: bool
    var stopped: bool
    ghost var written: seq<Item>

    ghost function View(): Loop
      reads this
    {
      Loop(maxSize, batchSize, first, seqNum, blocked, batchCh, queued, timer, sending, sendCh, done, stopped, written)
    }

    constructor (maxSize: nat, batchSize: int, now: nat)
      ensures Init(State(View(), Consumer(None, false, [], [], 0, [])))
    {
      this.maxSize, this.batchSize, first, seqNum := maxSize, batchSize, now, now;
      blocked, batchCh, queued, timer, sending, sendCh := None, [], [], Idle, false, None;
      done, stopped, written := false, false, [];
    }

    /** Refused once the queue is closed; otherwise the part under the lock, up to the send on the
        batch channel. */
    method Write(objects: seq<nat>, flush: Option<nat>) returns (n: int, ok: bool)
      requires blocked.None?
      modifies this
      ensures ok == !old(done)
      ensures ok ==> View() == LoopStep(old(View()), BeginWrite(objects, flush)) && n == seqNum
      ensures !ok ==> View() == old(View())
    {
      if done { return 0, false; }
      seqNum := seqNum + 1;
      blocked := Some(Item(seqNum, objects, flush));
      written := written + [Item(seqNum, objects, flush)];
      return seqNum, true;
    }

    /** Merge what is queued and go on to send it, if there is anything. */
    method WriteFn()
      requires timer.Idle? && !sending
      modifies this`sending
      ensures sending == (queued != [])
    {
      var req := MergeQueued(queued);
      if req.Some? { sending := true; }
    }

    method OnBatch()
      requires LoopEnabled(View(), Receive)
      modifies this
      ensures View() == LoopStep(old(View()), Receive)
    {
      var s: Item;
      if batchCh != [] {
        s, batchCh := batchCh[0], batchCh[1..];
      } else {
        s, blocked := blocked.value, None;
      }
      queued := queued + [s];
      if |queued| == 1 { timer := Running; }
      if |queued| == batchSize {
        timer := Idle;
        WriteFn();
      }
    }

    method OnTimer()
      requires LoopEnabled(View(), Timeout)
      modifies this
      ensures View() == LoopStep(old(View()), Timeout)
    {
      timer := Idle;
      WriteFn();
    }

    /** Closing twice is closing once. */
    method Close()
      modifies this
      ensures View() == LoopStep(old(View()), Step.Close)
    {
      if !done { done := true; }
    }

    /** The event loop notices that the queue was closed, and ends. */
    method OnDone()
      requires LoopEnabled(View(), Stop)
      modifies this
      ensures View() == LoopStep(old(View()), Stop)
    {
      timer := Idle;
      stopped := true;
    }

    method OnFlush()
      requires LoopEnabled(View(), Flush)
      modifies this
      ensures View() == LoopStep(old(View()), Flush)
    {
      timer := Idle;
      WriteFn();
    }
  }

  /** What trying a request until it succeeds amounts to. */
  function Retried(c: Consumer, attempts: seq<(bool, bool)>): (r: Consumer)
    ensures r.current == c.current
    decreases |attempts|
  {
    if attempts == [] || c.executed then c else Retried(Tried(c, attempts[0].0, attempts[0].1), attempts[1..])
  }

  class Service {
    var current: Option<seq<Item>>
    var executed: bool
    var seqNum: int
    ghost var delivered: seq<seq<Item>>
    ghost var runs: seq<nat>
    var closed: seq<nat>

    ghost function View(): Consumer
      reads this
    {
      Consumer(current, executed, delivered, runs, seqNum, closed)
    }

    /** The body of the consumer loop for one request. `attempts` says of each try whether it
        took effect and whether it was reported to succeed. */
    method HandleRequest(attempts: seq<(bool, bool)>)
      requires current.Some? && current.value != [] && !executed
      requires NumberedFrom(current.value, current.value[0].seqNum - 1)
      requires forall a :: a in attempts ==> a.1 ==> a.0
      modifies this
      ensures var c := if Objects(old(current).value) == [] then old(View()) else Retried(old(View()), attempts);
              View() == if c.executed || Objects(old(current).value) == [] then Finished(c) else c
    {
      var items := current.value;
      var req := MergeQueued(items);
      if req.value.objects != [] {
        var i := 0;
        while i < |attempts| && !executed
          invariant 0 <= i <= |attempts|
          invariant Retried(View(), attempts[i..]) == Retried(old(View()), attempts)
          invariant current == old(current) && seqNum == old(seqNum) && closed == old(closed)
          decreases |attempts| - i
        {
          if attempts[i].0 { runs := runs + [|delivered|]; }
          executed := attempts[i].1;
          assert attempts[i..][1..] == attempts[i + 1..];
          i := i + 1;
        }
        assert Retried(View(), attempts[i..]) == View();
        if !executed { return; }
      }
      RequestNumber(items, items[0].seqNum - 1, req.value);
      seqNum := req.value.seqNum;
      closed := closed + req.value.flushes;
      delivered := delivered + [items];
      current, executed := None, false;
    }

    /** Waits for a request and deals with it, which is a run of the consumer's steps. */
    method Consume(q: BatchQueue, attempts: seq<(bool, bool)>)
      requires Inv(State(q.View(), View())) && current.None? && q.sendCh.Some?
      requires forall a :: a in attempts ==> a.1 ==> a.0
      modifies this, q`sendCh
      ensures var s := Do(old(State(q.View(), View())), Take);
              var c := if Objects(s.consumer.current.value) == [] then s.consumer else Retried(s.consumer, attempts);
              q.View() == s.loop &&
              View() == if c.executed || Objects(s.consumer.current.value) == [] then Finished(c) else c
      ensures Inv(State(q.View(), View()))
    {
      ghost var s := State(q.View(), View());
      StepKeeps(s, Take);
      CurrentIsNumbered(Do(s, Take));
      current, q.sendCh := q.sendCh, None;
      assert State(q.View(), View()) == Do(s, Take);
      DealtWith(Do(s, Take), attempts);
      hide Inv;
      HandleRequest(attempts);
    }
  }

  lemma {:induction false} RetriedIsARun(l: Loop, c: Consumer, attempts: seq<(bool, bool)>) returns (run: seq<Step>)
    requires c.current.Some? && Objects(c.current.value) != [] && forall a :: a in attempts ==> a.1 ==> a.0
    ensures Legal(State(l, c), run) && After(State(l, c), run) == State(l, Retried(c, attempts))
    decreases |attempts|
  {
    run := [];
    if attempts != [] && !c.executed {
      var e := Attempt(attempts[0].0, attempts[0].1);
      assert attempts[0] in attempts;
      var rest := RetriedIsARun(l, Tried(c, e.applied, e.ok), attempts[1..]);
      run := [e] + rest;
      assert run[1..] == rest;
    }
  }

  lemma DealtWith(s: State, attempts: seq<(bool, bool)>)
    requires Inv(s) && s.consumer.current.Some? && forall a :: a in attempts ==> a.1 ==> a.0
    ensures var none := Objects(s.consumer.current.value) == [];
            var c := if none then s.consumer else Retried(s.consumer, attempts);
            Inv(State(s.loop, if c.executed || none then Finished(c) else c))
  {
    hide Inv, Objects, Retried;
    var none := Objects(s.consumer.current.value) == [];
    if none {
      StepKeeps(s, Finish);
    } else {
      var run := RetriedIsARun(s.loop, s.consumer, attempts);
      RunKeeps(s, run);
      var t := State(s.loop, Retried(s.consumer, attempts));
      if t.consumer.executed { StepKeeps(t, Finish); }
    }
  }
}
