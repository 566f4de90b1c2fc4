/** Waiting for an index to be reached. Channels are numbered in the order of their
    creation; closing one twice would be a panic. */
module ReadyTarget {

  datatype Subscriber = Subscriber(target: int, ch: nat)

  /** `asked[c]` is the target channel `c` waits for, `closed` the channels closed, in
      order, `dropped` those removed before they were closed. `epoch` is the first
      channel handed out since the last Reset, `signals` what was signalled since. */
  datatype Waiters = Waiters(current: int, subscribers: seq<Subscriber>, asked: seq<int>, closed: seq<nat>,
                             dropped: set<nat>, epoch: nat, signals: seq<int>)

  datatype Call = Subscribe(target: int) | Unsubscribe(ch: nat) | Signal(index: int) | Reset

  // ------------------------------------------------- what each call does

  function Reached(subs: seq<Subscriber>, index: int): seq<nat>
    decreases |subs|
  {
    if subs == [] then []
    else Reached(subs[..|subs| - 1], index) + if index >= subs[|subs| - 1].target then [subs[|subs| - 1].ch] else []
  }

  function Remaining(subs: seq<Subscriber>, index: int): seq<Subscriber>
    decreases |subs|
  {
    if subs == [] then []
    else Remaining(subs[..|subs| - 1], index) + if index >= subs[|subs| - 1].target then [] else [subs[|subs| - 1]]
  }

  /** The place of a channel among the subscribers, or their number. */
  function Find(subs: seq<Subscriber>, ch: nat): (i: nat)
    ensures i <= |subs| && (i < |subs| ==> subs[i].ch == ch) && forall j :: 0 <= j < i ==> subs[j].ch != ch
    decreases |subs|
  {
    if subs == [] then 0 else if subs[0].ch == ch then 0 else
      var i := Find(subs[1..], ch);
      assert forall j :: 1 <= j < i + 1 ==> subs[j] == subs[1..][j - 1];
      i + 1
  }

  function Removed(subs: seq<Subscriber>, ch: nat): seq<Subscriber> {
    var i := Find(subs, ch);
    if i < |subs| then subs[..i] + subs[i + 1..] else subs
  }

  function Do(w: Waiters, c: Call): Waiters {
    match c
    case Subscribe(target) =>
      var ch := |w.asked|;
      var w := w.(asked := w.asked + [target]);
      if target <= w.current then w.(closed := w.closed + [ch])
      else w.(subscribers := w.subscribers + [Subscriber(target, ch)])
    case Unsubscribe(ch) =>
      w.(subscribers := Removed(w.subscribers, ch),
         dropped := if Find(w.subscribers, ch) < |w.subscribers| then w.dropped + {ch} else w.dropped)
    case Signal(index) =>
      var w := w.(signals := w.signals + [index]);
      if index <= w.current then w
      else w.(current := index, closed := w.closed + Reached(w.subscribers, index),
        subscribers := Remaining(w.subscribers, index))
    case Reset =>
      w.(current := 0, subscribers := [], dropped := w.dropped + (set s | s in w.subscribers :: s.ch),
         epoch := |w.asked|, signals := [])
  }

  function New(): Waiters { Waiters(0, [], [], [], {}, 0, []) }

  // ------------------------------------------------- the invariant

  predicate Distinct(ns: seq<nat>) {
    forall i, j :: 0 <= i < j < |ns| ==> ns[i] != ns[j]
  }

  predicate Outstanding(w: Waiters, ch: nat) {
    exists s :: s in w.subscribers && s.ch == ch
  }

  /** Who still waits, waits for more than was reached; and no channel appears twice. */
  predicate SubscribersInv(w: Waiters) {
    (forall i :: 0 <= i < |w.subscribers| ==>
       var s := w.subscribers[i];
       s.target > w.current && w.epoch <= s.ch < |w.asked| && w.asked[s.ch] == s.target && s.ch !in w.closed &&
         s.ch !in w.dropped) &&
    (forall i, j :: 0 <= i < j < |w.subscribers| ==> w.subscribers[i].ch != w.subscribers[j].ch)
  }

  predicate ClosedInv(w: Waiters) {
    w.epoch <= |w.asked| && Distinct(w.closed) &&
    (forall ch :: ch in w.closed ==> ch < |w.asked| && (ch >= w.epoch ==> w.asked[ch] <= w.current)) &&
    (forall ch :: ch in w.dropped ==> ch < |w.asked| && ch !in w.closed)
  }

  /** Every channel was closed, was dropped, or is still waiting. */
  predicate AccountedFor(w: Waiters) {
    forall ch :: 0 <= ch < |w.asked| ==> ch in w.closed || ch in w.dropped || Outstanding(w, ch)
  }

  predicate CurrentIsMax(w: Waiters) {
    (w.current == 0 || w.current in w.signals) && w.current >= 0 && forall x :: x in w.signals ==> x <= w.current
  }

  predicate Inv(w: Waiters) {
    SubscribersInv(w) && ClosedInv(w) && AccountedFor(w) && CurrentIsMax(w)
  }

  // ------------------------------------------------- every call keeps it

  /** Signalling splits the subscribers in two. */
  lemma {:induction false} SignalSplits(subs: seq<Subscriber>, index: int)
    ensures forall ch :: ch in Reached(subs, index) <==> exists s :: s in subs && s.ch == ch && s.target <= index
    ensures forall s :: s in Remaining(subs, index) <==> s in subs && s.target > index
    decreases |subs|
  {
    if subs != [] {
      var rest, last := subs[..|subs| - 1], subs[|subs| - 1];
      SignalSplits(rest, index);
      assert forall s :: s in subs <==> s in rest || s == last;
    }
  }

  predicate DistinctChannels(subs: seq<Subscriber>) {
    forall i, j :: 0 <= i < j < |subs| ==> subs[i].ch != subs[j].ch
  }

  lemma {:induction false} SignalKeepsDistinct(subs: seq<Subscriber>, index: int)
    requires DistinctChannels(subs)
    ensures Distinct(Reached(subs, index)) && DistinctChannels(Remaining(subs, index))
    decreases |subs|
  {
    if subs != [] {
      var rest, last := subs[..|subs| - 1], subs[|subs| - 1];
      SignalKeepsDistinct(rest, index);
      SignalSplits(rest, index);
      assert forall s :: s in rest ==> s.ch != last.ch;
      if last.target <= index {
        assert last.ch !in Reached(rest, index);
        DistinctAppend(Reached(rest, index), [last.ch]);
      } else {
        assert Reached(subs, index) == Reached(rest, index);
        assert forall i :: 0 <= i < |Remaining(rest, index)| ==> Remaining(rest, index)[i] in rest;
      }
    }
  }

  lemma DistinctAppend(a: seq<nat>, b: seq<nat>)
    requires Distinct(a) && Distinct(b) && forall x :: x in a ==> x !in b
    ensures Distinct(a + b)
  {
    forall i, j | 0 <= i < j < |a + b| ensures (a + b)[i] != (a + b)[j] {
      if i < |a| <= j {
        assert (a + b)[i] in a && (a + b)[j] in b;
      }
    }
  }

  lemma SignalKeeps(w: Waiters, index: int)
    requires Inv(w) && index > w.current
    ensures Inv(Do(w, Signal(index)))
  {
    var v := Do(w, Signal(index));
    var reached := Reached(w.subscribers, index);
    SignalSplits(w.subscribers, index);
    SignalKeepsDistinct(w.subscribers, index);
    hide Reached, Remaining;
    assert CurrentIsMax(v);
    assert forall ch :: ch in v.closed <==> ch in w.closed || ch in reached;
    assert SplitBy(w, v, index);
    SignalSubscribers(w, v, index);
    SignalAccounts(w, v, index);
    assert forall s :: s in w.subscribers ==> s.ch !in w.closed;
    hide SubscribersInv, AccountedFor, CurrentIsMax;
    DistinctAppend(w.closed, reached);
    SignalClosed(w, v, index);
  }

  ghost predicate SplitBy(w: Waiters, v: Waiters, index: int) {
    v.asked == w.asked && v.dropped == w.dropped && v.epoch == w.epoch && v.current == index > w.current &&
    (forall ch :: ch in v.closed <==>
       ch in w.closed || exists s :: s in w.subscribers && s.ch == ch && s.target <= index) &&
    (forall s :: s in v.subscribers <==> s in w.subscribers && s.target > index)
  }

  lemma SignalSubscribers(w: Waiters, v: Waiters, index: int)
    requires SubscribersInv(w) && SplitBy(w, v, index) && DistinctChannels(v.subscribers)
    ensures SubscribersInv(v)
  {
    forall i | 0 <= i < |v.subscribers|
      ensures var s := v.subscribers[i];
              s.target > v.current && v.epoch <= s.ch < |v.asked| && v.asked[s.ch] == s.target &&
                s.ch !in v.closed && s.ch !in v.dropped
    {
      var s := v.subscribers[i];
      assert s in v.subscribers && s in w.subscribers;
      forall r | r in w.subscribers && r.ch == s.ch ensures r == s { }
    }
  }

  lemma SignalClosed(w: Waiters, v: Waiters, index: int)
    requires SubscribersInv(w) && ClosedInv(w) && SplitBy(w, v, index) && Distinct(v.closed)
    ensures ClosedInv(v)
  {
    forall s | s in w.subscribers ensures w.epoch <= s.ch < |w.asked| && w.asked[s.ch] == s.target &&
      s.ch !in w.dropped { }
  }

  lemma SignalAccounts(w: Waiters, v: Waiters, index: int)
    requires AccountedFor(w) && SplitBy(w, v, index)
    ensures AccountedFor(v)
  {
    forall ch | 0 <= ch < |v.asked| ensures ch in v.closed || ch in v.dropped || Outstanding(v, ch) {
      if Outstanding(w, ch) {
        var s :| s in w.subscribers && s.ch == ch;
        assert s.target > index ==> s in v.subscribers;
      }
    }
  }

  lemma SubscribeKeeps(w: Waiters, target: int)
    requires Inv(w)
    ensures Inv(Do(w, Subscribe(target)))
  {
    var v, ch := Do(w, Subscribe(target)), |w.asked|;
    assert ch !in w.closed && ch !in w.dropped;
    if target <= w.current {
      assert forall c :: c in v.closed <==> c in w.closed || c == ch;
      DistinctAppend(w.closed, [ch]);
    } else {
      assert forall s :: s in v.subscribers <==> s in w.subscribers || s == Subscriber(target, ch);
    }
    assert SubscribersInv(v) && ClosedInv(v) && CurrentIsMax(v);
    forall c | 0 <= c < |v.asked| ensures c in v.closed || c in v.dropped || Outstanding(v, c) {
      if c < ch && Outstanding(w, c) {
        var s :| s in w.subscribers && s.ch == c;
        assert s in v.subscribers;
      }
      if c == ch && target > w.current { assert Subscriber(target, ch) in v.subscribers; }
    }
  }

  lemma RemovedSplits(subs: seq<Subscriber>, ch: nat)
    requires DistinctChannels(subs)
    ensures DistinctChannels(Removed(subs, ch)) && forall s :: s in Removed(subs, ch) <==> s in subs && s.ch != ch
  {
    var i, r := Find(subs, ch), Removed(subs, ch);
    hide Find;
    if i < |subs| {
      assert forall j :: 0 <= j < |r| ==> r[j] == subs[if j < i then j else j + 1];
      forall s | s in subs && s.ch != ch ensures s in r {
        var j :| 0 <= j < |subs| && subs[j] == s;
        assert r[if j < i then j else j - 1] == s;
      }
    }
  }

  ghost predicate DropsOnly(w: Waiters, v: Waiters, ch: nat) {
    v == w.(subscribers := v.subscribers, dropped := v.dropped) &&
    (forall s :: s in v.subscribers <==> s in w.subscribers && s.ch != ch) &&
    v.dropped == if Outstanding(w, ch) then w.dropped + {ch} else w.dropped
  }

  lemma UnsubscribeKeeps(w: Waiters, ch: nat)
    requires Inv(w)
    ensures Inv(Do(w, Unsubscribe(ch)))
  {
    var v := Do(w, Unsubscribe(ch));
    assert DistinctChannels(w.subscribers);
    RemovedSplits(w.subscribers, ch);
    hide SubscribersInv, AccountedFor, ClosedInv, CurrentIsMax;
    assert Find(w.subscribers, ch) < |w.subscribers| <==> Outstanding(w, ch);
    hide Removed, Find, Outstanding;
    DropKeepsSubscribers(w, v, ch);
    DropAccounts(w, v, ch);
    DropKeepsClosed(w, v, ch);
    assert CurrentIsMax(v) by { SameSignals(w, v); }
  }

  lemma SameSignals(w: Waiters, v: Waiters)
    requires CurrentIsMax(w) && v.current == w.current && v.signals == w.signals
    ensures CurrentIsMax(v)
  {
  }

  lemma DropKeepsSubscribers(w: Waiters, v: Waiters, ch: nat)
    requires SubscribersInv(w) && DropsOnly(w, v, ch) && DistinctChannels(v.subscribers)
    ensures SubscribersInv(v)
  {
    hide Outstanding;
    forall i | 0 <= i < |v.subscribers| ensures v.subscribers[i] in w.subscribers && v.subscribers[i].ch != ch {
      assert v.subscribers[i] in v.subscribers;
    }
  }

  lemma DropKeepsClosed(w: Waiters, v: Waiters, ch: nat)
    requires SubscribersInv(w) && ClosedInv(w) && DropsOnly(w, v, ch)
    ensures ClosedInv(v)
  {
    assert Outstanding(w, ch) ==> ch < |w.asked| && ch !in w.closed;
  }

  lemma DropAccounts(w: Waiters, v: Waiters, ch: nat)
    requires AccountedFor(w) && DropsOnly(w, v, ch)
    ensures AccountedFor(v)
  {
    forall c | 0 <= c < |v.asked| ensures c in v.closed || c in v.dropped || Outstanding(v, c) {
      if c != ch && Outstanding(w, c) {
        var s :| s in w.subscribers && s.ch == c;
        assert s in v.subscribers;
      }
    }
  }

  lemma ResetKeeps(w: Waiters)
    requires Inv(w)
    ensures Inv(Do(w, Reset))
  {
    var v := Do(w, Reset);
    forall c | 0 <= c < |v.asked| ensures c in v.closed || c in v.dropped {
      assert Outstanding(w, c) ==> c in v.dropped;
    }
  }

  lemma CallKeeps(w: Waiters, c: Call)
    requires Inv(w)
    ensures Inv(Do(w, c))
  {
    match c
    case Subscribe(target) => SubscribeKeeps(w, target);
    case Unsubscribe(ch) => UnsubscribeKeeps(w, ch);
    case Signal(index) => if index > w.current { SignalKeeps(w, index); } else { LateSignal(w, index); }
    case Reset => ResetKeeps(w);
  }

  lemma LateSignal(w: Waiters, index: int)
    requires Inv(w) && index <= w.current
    ensures Inv(Do(w, Signal(index)))
  {
    var v := Do(w, Signal(index));
    assert forall ch :: Outstanding(w, ch) <==> Outstanding(v, ch);
  }

  // ------------------------------------------------- whole runs

  function After(w: Waiters, calls: seq<Call>): Waiters
    decreases |calls|
  {
    if calls == [] then w else Do(After(w, calls[..|calls| - 1]), calls[|calls| - 1])
  }

  lemma {:induction false} RunKeeps(calls: seq<Call>)
    ensures Inv(After(New(), calls))
    decreases |calls|
  {
    if calls != [] {
      RunKeeps(calls[..|calls| - 1]);
      CallKeeps(After(New(), calls[..|calls| - 1]), calls[|calls| - 1]);
    }
  }

  /** In every run no channel is closed twice, and a channel handed out since the last Reset
      and not removed is closed exactly when some signalled index has reached its target. */
  lemma ClosedIffReached(calls: seq<Call>, ch: nat)
    requires After(New(), calls).epoch <= ch < |After(New(), calls).asked| && ch !in After(New(), calls).dropped
    ensures var w := After(New(), calls);
            Distinct(w.closed) &&
            (ch in w.closed <==> w.asked[ch] <= 0 || exists x :: x in w.signals && x >= w.asked[ch])
  {
    RunKeeps(calls);
    hide After, New;
    var w := After(New(), calls);
    if ch !in w.closed {
      var s :| s in w.subscribers && s.ch == ch;
      assert w.asked[ch] > w.current;
    }
  }

  lemma StaysDropped(w: Waiters, c: Call)
    ensures w.dropped <= Do(w, c).dropped
  {
  }

  /** A channel that was removed, by Unsubscribe or by Reset, is never closed afterwards. */
  lemma {:induction false} DroppedStaysOpen(calls: seq<Call>, more: seq<Call>, ch: nat)
    requires ch in After(New(), calls).dropped
    ensures ch in After(New(), calls + more).dropped && ch !in After(New(), calls + more).closed
    decreases |more|
  {
    RunKeeps(calls + more);
    hide Do, New, SubscribersInv, AccountedFor, CurrentIsMax;
    if more == [] {
      assert calls + more == calls;
    } else {
      DroppedStaysOpen(calls, more[..|more| - 1], ch);
      assert (calls + more)[..|calls + more| - 1] == calls + more[..|more| - 1];
      StaysDropped(After(New(), calls + more[..|more| - 1]), more[|more| - 1]);
    }
  }

  /** Reset settles the channels handed out before it: those closed by then stay the only ones. */
  lemma {:induction false} ResetSettles(calls: seq<Call>, more: seq<Call>, ch: nat)
    requires ch < |After(New(), calls).asked|
    ensures var w := After(New(), calls + [Reset] + more);
            ch < w.epoch && (ch in w.closed <==> ch in After(New(), calls).closed)
    decreases |more|
  {
    var all := calls + [Reset] + more;
    if more == [] {
      assert all == calls + [Reset];
      assert all[..|all| - 1] == calls;
    } else {
      ResetSettles(calls, more[..|more| - 1], ch);
      assert all[..|all| - 1] == calls + [Reset] + more[..|more| - 1];
      RunKeeps(all[..|all| - 1]);
      OldStays(After(New(), all[..|all| - 1]), more[|more| - 1], ch);
    }
  }

  /** So a channel handed out before a Reset is closed, however long afterwards, if and only if an
      index signalled between the Reset before it and this one has reached its target. */
  lemma ClosedBeforeReset(calls: seq<Call>, more: seq<Call>, ch: nat)
    requires var w := After(New(), calls); w.epoch <= ch < |w.asked| && ch !in w.dropped
    ensures var w := After(New(), calls);
            ch in After(New(), calls + [Reset] + more).closed <==>
            w.asked[ch] <= 0 || exists x :: x in w.signals && x >= w.asked[ch]
  {
    ResetSettles(calls, more, ch);
    ClosedIffReached(calls, ch);
  }

  lemma OldStays(w: Waiters, c: Call, ch: nat)
    requires Inv(w) && ch < w.epoch
    ensures var v := Do(w, c); ch < v.epoch && (ch in v.closed <==> ch in w.closed)
  {
    hide AccountedFor, CurrentIsMax;
    if c.Signal? {
      SignalSplits(w.subscribers, c.index);
      assert forall s :: s in w.subscribers ==> s.ch >= w.epoch;
      hide Reached, Remaining;
      assert ch !in Reached(w.subscribers, c.index);
    }
  }

  /** A subscriber outstanding at a Reset is never notified, whatever is signalled afterwards. */
  lemma ResetForgets(calls: seq<Call>, more: seq<Call>, ch: nat)
    requires Outstanding(After(New(), calls), ch)
    ensures var w := After(New(), calls + [Reset] + more);
            After(New(), calls).asked <= w.asked && ch !in w.closed && ch in w.dropped
  {
    hide New;
    var both := calls + [Reset];
    assert both[..|calls|] == calls;
    assert After(New(), both) == Do(After(New(), calls), Reset);
    assert ch in After(New(), both).dropped;
    DroppedStaysOpen(both, more, ch);
    AskedGrows(both, more);
  }

  lemma {:induction false} AskedGrows(calls: seq<Call>, more: seq<Call>)
    ensures After(New(), calls).asked <= After(New(), calls + more).asked
    decreases |more|
  {
    if more == [] {
      assert calls + more == calls;
    } else {
      AskedGrows(calls, more[..|more| - 1]);
      assert (calls + more)[..|calls + more| - 1] == calls + more[..|more| - 1];
    }
  }

  /** Nothing but the calls above drops a channel: without Reset and Unsubscribe none is lost. */
  lemma {:induction false} NoneLost(calls: seq<Call>)
    requires forall i :: 0 <= i < |calls| ==> calls[i].Subscribe? || calls[i].Signal?
    ensures After(New(), calls).dropped == {} && After(New(), calls).epoch == 0
    decreases |calls|
  {
    if calls != [] { NoneLost(calls[..|calls| - 1]); }
  }

  // ------------------------------------------------- the code

  class Target {
    var current: int
    var subscribers: seq<Subscriber>
    var asked: seq<int>
    var closed: seq<nat>
    ghost var dropped: set<nat>
    ghost var epoch: nat
    ghost var signals: seq<int>

    ghost function View(): Waiters
      reads this
    {
      Waiters(current, subscribers, asked, closed, dropped, epoch, signals)
    }

    constructor ()
      ensures View() == New()
    {
      current, subscribers, asked, closed, dropped, epoch, signals := 0, [], [], [], {}, 0, [];
    }

    /** Closing a closed channel panics. */
    method Close(ch: nat)
      requires ch !in closed
      modifies this`closed
      ensures closed == old(closed) + [ch]
    {
      closed := closed + [ch];
    }

    method Subscribe(target: int) returns (ch: nat)
      requires Inv(View())
      modifies this
      ensures View() == Do(old(View()), Call.Subscribe(target)) && Inv(View()) && ch == |old(asked)|
    {
      SubscribeKeeps(View(), target);
      ch := |asked|;
      asked := asked + [target];
      if target <= current {
        Close(ch);
      } else {
        subscribers := subscribers + [Subscriber(target, ch)];
      }
    }

    method Unsubscribe(ch: nat)
      requires Inv(View())
      modifies this
      ensures View() == Do(old(View()), Call.Unsubscribe(ch)) && Inv(View())
    {
      hide SubscribersInv, AccountedFor, ClosedInv, CurrentIsMax, Find;
      UnsubscribeKeeps(View(), ch);
      var i := 0;
      while i < |subscribers| && subscribers[i].ch != ch
        invariant 0 <= i <= |subscribers|
        invariant forall j :: 0 <= j < i ==> subscribers[j].ch != ch
      {
        i := i + 1;
      }
      hide Inv;
      FirstFound(subscribers, ch, i);
      ghost var rest := Removed(subscribers, ch);
      assert rest == if i < |subscribers| then subscribers[..i] + subscribers[i + 1..] else subscribers;
      hide Removed;
      if i < |subscribers| {
        dropped := dropped + {ch};
        subscribers := subscribers[..i] + subscribers[i + 1..];
      }
    }

    /** Close the channels that have waited long enough. */
    method Notify(index: int) returns (remaining: seq<Subscriber>)
      requires SubscribersInv(View())
      modifies this`closed
      ensures remaining == Remaining(subscribers, index) && closed == old(closed) + Reached(subscribers, index)
    {
      ghost var was := View();
      hide SubscribersInv;
      remaining := [];
      for i := 0 to |subscribers|
        invariant remaining == Remaining(subscribers[..i], index)
        invariant closed == was.closed + Reached(subscribers[..i], index)
      {
        assert subscribers[..i + 1][..i] == subscribers[..i];
        if index >= subscribers[i].target {
          StillOpen(was, i, index);
          Close(subscribers[i].ch);
        } else {
          remaining := remaining + [subscribers[i]];
        }
      }
      assert subscribers[..|subscribers|] == subscribers;
    }

    method Signal(index: int)
      requires Inv(View())
      modifies this
      ensures View() == Do(old(View()), Call.Signal(index)) && Inv(View())
    {
      CallKeeps(View(), Call.Signal(index));
      hide SubscribersInv, AccountedFor, ClosedInv, CurrentIsMax;
      var remaining := subscribers;
      if index > current { remaining := Notify(index); }
      signals := signals + [index];
      if index <= current { return; }
      current, subscribers := index, remaining;
    }

    method Reset()
      requires Inv(View())
      modifies this
      ensures View() == Do(old(View()), Call.Reset) && Inv(View())
    {
      ResetKeeps(View());
      dropped := dropped + set s | s in subscribers :: s.ch;
      current, subscribers, epoch, signals := 0, [], |asked|, [];
    }
  }

  lemma FirstFound(subs: seq<Subscriber>, ch: nat, i: nat)
    requires i <= |subs| && (i < |subs| ==> subs[i].ch == ch) && forall j :: 0 <= j < i ==> subs[j].ch != ch
    ensures Find(subs, ch) == i
  {
    hide Find;
  }

  /** The next subscriber's channel has not been closed by this signal or an earlier one. */
  lemma StillOpen(w: Waiters, i: nat, index: int)
    requires SubscribersInv(w) && i < |w.subscribers|
    ensures w.subscribers[i].ch !in w.closed + Reached(w.subscribers[..i], index)
  {
    SignalSplits(w.subscribers[..i], index);
    assert forall s :: s in w.subscribers[..i] ==> s.ch != w.subscribers[i].ch;
  }
}
