/** Whole lives of a snapshot store: any operations, a crash after any
    filesystem call, any number of interrupted repairs. */
module SnapshotRuns {
  import opened SnapshotDir
  import opened SnapshotStore
  import opened SnapshotSink

  /** What the node asks of the store next. */
  datatype Op =
    | Take(id: Id, data: Data)
    | GiveUp(id: Id, data: Data)
    | Reap
    | NeedFull
    | Restart

  /** An operation, the files outside the store that its data may name, and the
      filesystem call after which the node dies; it survives if there is no such call. */
  datatype Event = Event(op: Op, files: map<nat, Data>, dies: int)

  ghost predicate NotOlder(v: View, w: View) {
    v.Snapshot? ==> w.Snapshot? && (v.id == w.id || Less(v.id, w.id))
  }

  /** The store's view either stays, or becomes exactly what the operation would finalize. */
  ghost predicate Advances(v: View, w: View, op: Op, outside: map<nat, Data>) {
    w == v ||
    (op.Take? && Acceptable(v, op.id, op.data, Incoming(op.data, outside)) &&
     w == Snapshot(op.id, NewDb(v, op.id, op.data, Incoming(op.data, outside))))
  }

  lemma AdvanceNotOlder(v: View, w: View, op: Op, outside: map<nat, Data>)
    requires Advances(v, w, op, outside)
    ensures NotOlder(v, w)
  {
  }

  lemma NotOlderTransitive(u: View, v: View, w: View)
    requires NotOlder(u, v) && NotOlder(v, w)
    ensures NotOlder(u, w)
  {
  }

  // ------------------------------------------------- one operation

  /** The operation has data for a snapshot that the store will finalize. A snapshot whose ID is
      in use is not issued; IDs carry the time of their creation. */
  ghost predicate Finalizes(d: Dir, op: Op, files: map<nat, Data>)
    requires Clean(d)
  {
    op.Take? && !d.Mentions(op.id) && Acceptable(ViewOf(d), op.id, op.data, Incoming(op.data, files))
  }

  /** The snapshot the store holds once the operation has run to its end. */
  ghost function Outcome(d: Dir, op: Op, files: map<nat, Data>): View
    requires Clean(d)
  {
    if Finalizes(d, op, files) then Snapshot(op.id, NewDb(ViewOf(d), op.id, op.data, Incoming(op.data, files)))
    else ViewOf(d)
  }

  /** What an operation that runs to its end makes of a clean directory. */
  ghost predicate Done(d: Dir, e: Dir, op: Op, files: map<nat, Data>)
    requires Clean(d)
  {
    Clean(e) && ViewOf(e) == Outcome(d, op, files) &&
    match op
    case Take(id, data) => if Finalizes(d, op, files) then e.snaps.Keys == {id} && !e.full else e == d
    case GiveUp(id, data) => e == d
    case Reap => e.full == d.full && (d.snaps.Keys != {} ==> e.snaps.Keys == {Newest(d.snaps.Keys)})
    case NeedFull => e == d.(full := true)
    case Restart => e == d
  }

  lemma OutcomeAdvances(d: Dir, w: View, op: Op, files: map<nat, Data>)
    requires Clean(d) && (w == ViewOf(d) || w == Outcome(d, op, files))
    ensures Advances(ViewOf(d), w, op, files)
  {
  }

  /** Runs one operation to its end on a clean store. */
  method Perform(s: Store, op: Op) returns (ghost commit: nat)
    requires Clean(s.dir) && s.trace == [] && s.Logged()
    modifies s`dir, s`trace, s`outside
    ensures s.Logged() && Done(old(s.dir), s.dir, op, old(s.outside))
    ensures SwitchesAt(s.trace, 0, commit, old(ViewOf(s.dir)), Outcome(old(s.dir), op, old(s.outside)))
  {
    MetasOf(s.dir);
    hide Recoverable, ViewOf, Dir.Mentions, Store.Logged;
    commit := 0;
    ghost var d := s.dir;
    match op {
      case Take(id, data) =>
        commit := PerformTake(s, id, data);
      case GiveUp(id, data) =>
        PerformGiveUp(s, id, data);
      case Reap =>
        s.Reap();
      case NeedFull =>
        s.Do(SetFull(true));
        SameView(d, s.dir);
      case Restart =>
        assert s.dir.tmps == map[];
        var ok := s.Check();
    }
  }

  method PerformTake(s: Store, id: Id, data: Data) returns (ghost commit: nat)
    requires Clean(s.dir) && s.trace == [] && s.Logged()
    modifies s`dir, s`trace, s`outside
    ensures s.Logged() && Done(old(s.dir), s.dir, Take(id, data), old(s.outside))
    ensures SwitchesAt(s.trace, 0, commit, old(ViewOf(s.dir)), Outcome(old(s.dir), Take(id, data), old(s.outside)))
  {
    hide Recoverable, ViewOf, Store.Logged;
    commit := 0;
    if s.dir.Mentions(id) { return; }
    ghost var v, base := ViewOf(s.dir), s.dir;
    var sink := new Sink(s, id);
    sink.Open();
    assert sink.Base() == base;
    sink.Write(data);
    assert sink.Base() == base;
    ghost var t := s.trace;
    assert AllSafe(t, 0, v);
    var finalized;
    finalized, commit := sink.Close();
    commit := if commit < |t| then |t| else commit;
    Appended(t, s.trace, commit, v, Outcome(base, Take(id, data), old(s.outside)));
  }

  lemma Appended(t: seq<Dir>, u: seq<Dir>, commit: nat, v: View, w: View)
    requires t <= u && AllSafe(t, 0, v) && SwitchesAt(u, |t|, commit, v, w) && |t| <= commit
    ensures SwitchesAt(u, 0, commit, v, w)
  {
    hide Recoverable, ViewOf;
    forall i | 0 <= i < |t| ensures Safe(u[i], v) {
      assert Safe(t[i], v);
    }
  }

  method PerformGiveUp(s: Store, id: Id, data: Data)
    requires Clean(s.dir) && s.trace == [] && s.Logged()
    modifies s`dir, s`trace
    ensures s.Logged() && s.dir == old(s.dir) && AllSafe(s.trace, 0, old(ViewOf(s.dir)))
  {
    hide Recoverable, ViewOf, Store.Logged;
    if s.dir.Mentions(id) { return; }
    ghost var v, base := ViewOf(s.dir), s.dir;
    var sink := new Sink(s, id);
    sink.Open();
    assert sink.Base() == base;
    sink.Write(data);
    assert sink.Base() == base;
    sink.Cancel();
  }

  // ------------------------------------------------- whole lives

  /** What became of one event: whether the store was up, the directories it went through call by
      call, the call from which a new snapshot counted, and the directory it left behind. */
  datatype Chapter = Chapter(up: bool, before: Dir, calls: seq<Dir>, commit: nat, after: Dir)

  ghost predicate Dies(e: Event, c: Chapter) { 0 <= e.dies < |c.calls| }

  /** The chapter is what the event does: to a store that is up the operation, to one that is down
      the repair with which a restart begins, each as far as the call after which the node dies. */
  ghost predicate Fits(e: Event, c: Chapter) {
    Recoverable(c.before) && Traced(c.before, c.calls) &&
    c.after == (if Dies(e, c) then c.calls[e.dies] else End(c.before, c.calls)) &&
    if c.up then
      Clean(c.before) &&
      SwitchesAt(c.calls, 0, c.commit, ViewOf(c.before), Outcome(c.before, e.op, e.files)) &&
      (!Dies(e, c) ==> Done(c.before, c.after, e.op, e.files))
    else
      AllSafe(c.calls, 0, ViewOf(c.before)) &&
      (!Dies(e, c) ==> Repaired(c.before, c.after))
  }

  /** A repair finishes what was left unfinished and changes nothing else that can be seen. */
  ghost predicate Repaired(d: Dir, e: Dir)
    requires Recoverable(d)
  {
    Clean(e) && ViewOf(e) == ViewOf(d) && e.full == d.full && e.snaps.Keys == d.snaps.Keys
  }

  /** The directory after `k` events. */
  function DirAt(d: Dir, tale: seq<Chapter>, k: nat): Dir
    requires k <= |tale|
  {
    if k == 0 then d else tale[k - 1].after
  }

  /** The store is up unless the node died in the event before. */
  ghost predicate UpAt(events: seq<Event>, tale: seq<Chapter>, k: nat)
    requires k <= |tale| <= |events|
  {
    k == 0 || !Dies(events[k - 1], tale[k - 1])
  }

  /** One chapter per event, each beginning as the one before it ended. */
  ghost predicate Tells(d: Dir, events: seq<Event>, tale: seq<Chapter>) {
    |tale| <= |events| &&
    forall k :: 0 <= k < |tale| ==> Follows(d, events, tale, k)
  }

  ghost predicate Follows(d: Dir, events: seq<Event>, tale: seq<Chapter>, k: nat)
    requires k < |tale| <= |events|
  {
    Fits(events[k], tale[k]) && tale[k].before == DirAt(d, tale, k) && tale[k].up == UpAt(events, tale, k)
  }

  /** One event, on a store that is up or still has to be repaired. */
  method Experience(d: Dir, e: Event, up: bool) returns (ghost c: Chapter, stillUp: bool, after: Dir)
    requires Recoverable(d) && (up ==> Clean(d))
    ensures Fits(e, c) && c.before == d && c.up == up && c.after == after && stillUp == !Dies(e, c)
  {
    hide Recoverable, ViewOf, Store.Logged, Done, Outcome;
    var s := new Store(d, e.files);
    ghost var commit := 0;
    if up {
      commit := Perform(s, e.op);
    } else {
      assert s.dir.tmps.Keys !! s.dir.snaps.Keys by { MetasOf(s.dir); }
      var ok := s.Check();
    }
    stillUp := !(0 <= e.dies < |s.trace|);
    after := if stillUp then s.dir else s.trace[e.dies];
    c := Chapter(up, d, s.trace, commit, after);
    LogLeads(s);
  }

  lemma LogLeads(s: Store)
    requires s.Logged()
    ensures Traced(s.start, s.trace) && s.dir == End(s.start, s.trace)
  {
  }

  /** Where an event leaves the store: it can be repaired, it is clean if the node lives, and it
      holds the snapshot it held or the one being finalized. */
  lemma FitAdvances(e: Event, c: Chapter)
    requires Fits(e, c)
    ensures Recoverable(c.after) && (!Dies(e, c) ==> Clean(c.after))
    ensures Advances(ViewOf(c.before), ViewOf(c.after), e.op, e.files)
  {
    hide Recoverable, ViewOf, Outcome, Advances;
    if c.up { OutcomeAdvances(c.before, ViewOf(c.after), e.op, e.files); }
    else { Stays(ViewOf(c.before), e.op, e.files); }
  }

  lemma Stays(v: View, op: Op, files: map<nat, Data>)
    ensures Advances(v, v, op, files)
  {
  }

  /** The snapshot the store holds after `k` events. */
  ghost function ViewAt(d: Dir, tale: seq<Chapter>, k: nat): View
    requires k <= |tale|
  {
    if Recoverable(DirAt(d, tale, k)) then ViewOf(DirAt(d, tale, k)) else NoSnapshot
  }

  lemma EachAdvances(d: Dir, events: seq<Event>, tale: seq<Chapter>, k: nat)
    requires Clean(d) && Tells(d, events, tale) && k < |tale|
    ensures Recoverable(DirAt(d, tale, k + 1))
    ensures Advances(ViewAt(d, tale, k), ViewAt(d, tale, k + 1), events[k].op, events[k].files)
  {
    assert Follows(d, events, tale, k);
    FitAdvances(events[k], tale[k]);
  }

  lemma {:induction false} NeverGoesBack(d: Dir, events: seq<Event>, tale: seq<Chapter>, i: nat, j: nat)
    requires Clean(d) && Tells(d, events, tale) && i <= j <= |tale|
    ensures NotOlder(ViewAt(d, tale, i), ViewAt(d, tale, j))
    decreases j
  {
    hide Recoverable, ViewOf, Advances, NotOlder, Follows;
    var v := ViewAt(d, tale, i);
    if i == j {
      Reflexive(v);
    } else {
      NeverGoesBack(d, events, tale, i, j - 1);
      EachAdvances(d, events, tale, j - 1);
      var u, w := ViewAt(d, tale, j - 1), ViewAt(d, tale, j);
      AdvanceNotOlder(u, w, events[j - 1].op, events[j - 1].files);
      NotOlderTransitive(v, u, w);
    }
  }

  /** Lives through any list of events, starting from a clean store. The tale says what each event
      did; no repair fails, each event leaves the snapshot as it was or exactly the one being
      finalized, and the newest snapshot never goes backwards. */
  method Live(d: Dir, events: seq<Event>) returns (ghost tale: seq<Chapter>, end: Dir)
    requires Clean(d)
    ensures |tale| == |events| && Tells(d, events, tale) && end == DirAt(d, tale, |events|) && Recoverable(end)
    ensures forall i, j :: 0 <= i <= j <= |events| ==> NotOlder(ViewAt(d, tale, i), ViewAt(d, tale, j))
    ensures forall i :: 0 <= i < |events| ==>
              Advances(ViewAt(d, tale, i), ViewAt(d, tale, i + 1), events[i].op, events[i].files)
  {
    hide Recoverable, ViewOf, Advances, NotOlder, Fits, Dies;
    var up := true;
    end, tale := d, [];
    for k := 0 to |events|
      invariant Recoverable(end) && (up ==> Clean(end))
      invariant |tale| == k && Tells(d, events, tale) && end == DirAt(d, tale, k) && up == UpAt(events, tale, k)
    {
      ghost var c;
      c, up, end := Experience(end, events[k], up);
      FitAdvances(events[k], c);
      OneMoreChapter(d, events, tale, c);
      tale := tale + [c];
    }
    forall i, j | 0 <= i <= j <= |events| ensures NotOlder(ViewAt(d, tale, i), ViewAt(d, tale, j)) {
      NeverGoesBack(d, events, tale, i, j);
    }
    forall i | 0 <= i < |events|
      ensures Advances(ViewAt(d, tale, i), ViewAt(d, tale, i + 1), events[i].op, events[i].files)
    {
      EachAdvances(d, events, tale, i);
    }
  }

  lemma OneMoreChapter(d: Dir, events: seq<Event>, tale: seq<Chapter>, c: Chapter)
    requires Tells(d, events, tale) && |tale| < |events| && Fits(events[|tale|], c)
    requires c.before == DirAt(d, tale, |tale|) && c.up == UpAt(events, tale, |tale|)
    ensures Tells(d, events, tale + [c])
  {
    hide Fits, Dies;
    forall k | 0 <= k < |tale| + 1 ensures Follows(d, events, tale + [c], k) {
      if k < |tale| { assert Follows(d, events, tale, k); }
    }
  }

  lemma Reflexive(v: View)
    ensures NotOlder(v, v)
  {
  }
}
