/** A run that shows why the term of the last strong read is needed. */
module LinearLag {
  import opened LinearRead

  /** A cluster of one voter, by its node, the terms led so far, and what was committed and acknowledged. */
  function Alone(p: Peer, chiefs: map<nat, nat>, ledger: map<nat, seq<Entry>>, committed: seq<Entry>,
                 acked: set<nat>): Cluster {
    Cluster({0}, map[0 := p], committed, {0}, chiefs, ledger, acked, map[])
  }

  /** The voter leads term 1, commits and acknowledges a write, restarts, and leads term 2. */
  function Stage(i: nat): Cluster {
    var log := [Entry(1, 7)];
    match i
    case 0 => Alone(Peer(1, false, [], 0, 0, 0), map[], map[], [], {})
    case 1 => Alone(Peer(1, true, [], 0, 0, 0), map[1 := 0], map[1 := []], [], {})
    case 2 => Alone(Peer(1, true, log, 0, 0, 0), map[1 := 0], map[1 := log], [], {})
    case 3 => Alone(Peer(1, true, log, 1, 0, 0), map[1 := 0], map[1 := log], log, {})
    case 4 => Alone(Peer(1, true, log, 1, 1, 0), map[1 := 0], map[1 := log], log, {})
    case 5 => Alone(Peer(1, true, log, 1, 1, 0), map[1 := 0], map[1 := log], log, {0})
    case 6 => Alone(Peer(1, false, log, 0, 0, 0), map[1 := 0], map[1 := log], log, {0})
    case 7 => Alone(Peer(2, false, log, 0, 0, 0), map[1 := 0], map[1 := log], log, {0})
    case _ => Alone(Peer(2, true, log, 0, 0, 0), map[1 := 0, 2 := 0], map[1 := log, 2 := log], log, {0})
  }

  function StageStep(i: nat): Step {
    match i
    case 0 => Elect(0, {0})
    case 1 => Append(0, 7)
    case 2 => Commit(0, {0}, 1)
    case 3 => Apply(0, 1)
    case 4 => Acknowledge(0, 0)
    case 5 => Restart(0)
    case 6 => RaiseTerm(0, 2)
    case _ => Elect(0, {0})
  }

  ghost predicate Follows(c: Cluster, s: Step, d: Cluster) {
    Known(c) && Enabled(c, s) && Do(c, s) == d
  }

  lemma FirstElection() ensures Follows(Stage(0), StageStep(0), Stage(1)) {
    assert Stage(1).peers == Stage(0).peers[0 := Stage(1).peers[0]];
  }

  lemma FirstEntry() ensures Follows(Stage(1), StageStep(1), Stage(2)) {
    assert [] + [Entry(1, 7)] == [Entry(1, 7)];
    assert Stage(2).ledger == Stage(1).ledger[1 := [Entry(1, 7)]];
  }

  lemma FirstCommit() ensures Follows(Stage(2), StageStep(2), Stage(3)) {
    assert Stage(2).peers[0].log[..1] == [Entry(1, 7)];
  }

  lemma FirstAnswer(i: nat)
    requires 3 <= i <= 4
    ensures Follows(Stage(i), StageStep(i), Stage(i + 1))
  {
  }

  lemma Reboot(i: nat)
    requires 5 <= i <= 6
    ensures Follows(Stage(i), StageStep(i), Stage(i + 1))
  {
    assert Aborted(Stage(5), 0) == map[];
  }

  lemma SecondElection() ensures Follows(Stage(7), StageStep(7), Stage(8)) {
    assert Stage(8).ledger == Stage(7).ledger[2 := [Entry(1, 7)]];
    assert Stage(8).chiefs == Stage(7).chiefs[2 := 0];
  }

  lemma {:induction false} StagesRun(i: nat) returns (run: seq<Step>)
    requires i <= 8
    ensures Legal(Stage(i), run) && After(Stage(i), run) == Stage(8)
    decreases 8 - i
  {
    hide Stage, StageStep, Enabled, Do, Known;
    run := [];
    if i < 8 {
      var rest := StagesRun(i + 1);
      FirstElection();
      FirstEntry();
      FirstCommit();
      if 3 <= i <= 4 { FirstAnswer(i); }
      if 5 <= i <= 6 { Reboot(i); }
      SecondElection();
      run := [StageStep(i)] + rest;
      assert run[1..] == rest;
    }
  }

  /** Why the record is needed: a confirmed leader of a new term may have a commit index
      below a write that was acknowledged long ago. */
  lemma NewLeaderLags() returns (c: Cluster, run: seq<Step>)
    ensures Init(c) && Legal(c, run)
    ensures var d := After(c, run);
            0 in d.peers && d.peers[0].leader && Quorum(d, {0}) && 0 in d.acked && d.peers[0].commit == 0 &&
            d.peers[0].strong != d.peers[0].term
  {
    hide Legal, After;
    c := Stage(0);
    run := StagesRun(0);
  }
}
