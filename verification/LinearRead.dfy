/** Linearizable reads on top of Raft. Raft is the environment: its steps are
    constrained only by what it guarantees (one leader per term, quorums whose
    terms only grow, log matching, a single committed log). The steps of
    `Store.Query` are modelled one by one, freely interleaved with Raft's. */
module LinearRead {

  datatype Entry = Entry(term: nat, cmd: nat)

  /** One node: `strong` is the term recorded by the last strong read; the
      database is the effect of the first `applied` committed entries. */
  datatype Peer = Peer(term: nat, leader: bool, log: seq<Entry>, commit: nat, applied: nat, strong: nat)

  /** How far a query has come. */
  datatype Phase =
    | Started
    | HaveTerm(readTerm: nat)
    | Linear(readTerm: nat)
    | Indexed(readTerm: nat, readIndex: nat)
    | Verifying(readTerm: nat, readIndex: nat, vTerm: nat, acks: set<nat>)
    | Verified(readTerm: nat, readIndex: nat, vTerm: nat)
    | Waiting(readIndex: nat)
    | Upgraded(readTerm: nat)
    | Proposed(readTerm: nat, at: nat, entryTerm: nat)
    | Rows(upTo: nat)
    | Error

  /** `begin` and `acked` record the committed log and the acknowledged writes
      when the query began, `quorum` the nodes that vouch for them. */
  datatype Query = Query(peer: nat, phase: Phase, begin: seq<Entry>, acked: set<nat>, quorum: set<nat>)

  /** `ledger[t]` is the log written by the leader of term `t`, `chiefs[t]` that
      leader; `backers` is the quorum behind the last growth of the committed log. */
  datatype Cluster = Cluster(voters: set<nat>, peers: map<nat, Peer>, committed: seq<Entry>, backers: set<nat>,
                             chiefs: map<nat, nat>, ledger: map<nat, seq<Entry>>,
                             acked: set<nat>, queries: map<nat, Query>)

  // ------------------------------------------------- quorums

  ghost predicate Quorum(c: Cluster, q: set<nat>) {
    q <= c.voters && 2 * |q| > |c.voters|
  }

  lemma QuorumsMeet(c: Cluster, p: set<nat>, q: set<nat>)
    requires Quorum(c, p) && Quorum(c, q)
    ensures exists v :: v in p && v in q
  {
    Smaller(p + q, c.voters);
    assert |p + q| == |p| + |q| - |p * q|;
    assert |p * q| > 0;
    var v :| v in p * q;
  }

  lemma {:induction false} Smaller(a: set<nat>, b: set<nat>)
    requires a <= b
    ensures |a| <= |b|
    decreases a
  {
    if x :| x in a {
      Smaller(a - {x}, b - {x});
    }
  }

  /** The term of the leader that committed last. */
  function LastTerm(log: seq<Entry>): nat {
    if log == [] then 0 else log[|log| - 1].term
  }

  // ------------------------------------------------- steps

  datatype Step =
    | RaiseTerm(n: nat, t: nat)
    | StepDown(n: nat)
    | Elect(n: nat, q: set<nat>)
    | Replicate(n: nat, log: seq<Entry>)
    | Append(n: nat, cmd: nat)
    | Commit(n: nat, q: set<nat>, k: nat)
    | Learn(n: nat, k: nat)
    | Apply(n: nat, k: nat)
    | Acknowledge(n: nat, i: nat)
    | Restart(n: nat)
    | Begin(id: nat, n: nat)
    | Advance(id: nat, move: Move)
    | Heartbeat(id: nat, v: nat)
    | FinishVerify(id: nat)
    | Propose(id: nat, cmd: nat)
    | Complete(id: nat)

  /** Steps of a query that look at its own node only. */
  datatype Move = SampleTerm | CompareStrong | GoStrong | SampleIndex | StartVerify | CheckTerm | ReadRows | GiveUp

  predicate MayMove(p: Peer, ph: Phase, m: Move) {
    match m
    case SampleTerm => ph.Started?
    case CompareStrong => ph.HaveTerm?
    case GoStrong => ph.HaveTerm?
    case SampleIndex => ph.Linear?
    case StartVerify => ph.Indexed? && p.leader
    case CheckTerm => ph.Verified?
    case ReadRows => ph.Waiting? && p.applied >= ph.readIndex
    case GiveUp => !ph.Rows?
  }

  function Moved(p: Peer, ph: Phase, m: Move): Phase
    requires MayMove(p, ph, m)
  {
    match m
    case SampleTerm => HaveTerm(p.term)
    case CompareStrong => if ph.readTerm == p.strong then Linear(ph.readTerm) else Upgraded(ph.readTerm)
    case GoStrong => Upgraded(ph.readTerm)
    case SampleIndex => Indexed(ph.readTerm, p.commit)
    case StartVerify => Verifying(ph.readTerm, ph.readIndex, p.term, {})
    case CheckTerm => if p.term == ph.readTerm then Waiting(ph.readIndex) else Error
    case ReadRows => Rows(p.applied)
    case GiveUp => Error
  }

  /** Every entry of `log` was written by the leader of its term, at that place. */
  predicate Matches(c: Cluster, log: seq<Entry>) {
    forall i :: 0 <= i < |log| ==>
      log[i].term in c.ledger && i < |c.ledger[log[i].term]| && c.ledger[log[i].term][i] == log[i]
  }

  predicate TermsUpTo(log: seq<Entry>, t: nat) {
    forall i :: 0 <= i < |log| ==> log[i].term <= t
  }

  predicate Reached(c: Cluster, q: set<nat>, t: nat) {
    forall v :: v in q ==> v in c.peers && c.peers[v].term >= t
  }

  /** Terms are led once, by a node that a quorum followed into the term. */
  ghost predicate MayLead(c: Cluster, n: nat, q: set<nat>) {
    n in c.peers && !c.peers[n].leader && c.peers[n].term > 0 && c.peers[n].term !in c.chiefs &&
    Quorum(c, q) && Reached(c, q, c.peers[n].term) && Matches(c, c.peers[n].log) &&
      TermsUpTo(c.peers[n].log, c.peers[n].term)
  }

  /** A leader commits an entry of its own term that a quorum stored, and committed logs never part. */
  ghost predicate MayCommit(c: Cluster, n: nat, q: set<nat>, k: nat) {
    n in c.peers && c.peers[n].leader && 0 < k <= |c.peers[n].log| &&
    c.peers[n].log[k - 1].term == c.peers[n].term && Quorum(c, q) && Reached(c, q, c.peers[n].term) &&
    (c.committed <= c.peers[n].log[..k] || c.peers[n].log[..k] <= c.committed)
  }

  /** What Raft guarantees before each of its steps, and what the code checks before each of its own. */
  ghost predicate Enabled(c: Cluster, s: Step)
    requires Known(c)
  {
    match s
    case RaiseTerm(n, t) => n in c.peers && t > c.peers[n].term
    case StepDown(n) => n in c.peers && c.peers[n].leader
    case Elect(n, q) => MayLead(c, n, q)
    case Replicate(n, log) => n in c.peers && !c.peers[n].leader
    case Append(n, cmd) => n in c.peers && c.peers[n].leader
    case Commit(n, q, k) => MayCommit(c, n, q, k)
    case Learn(n, k) => n in c.peers && c.peers[n].commit <= k <= |c.committed|
    case Apply(n, k) => n in c.peers && c.peers[n].applied <= k <= c.peers[n].commit
    case Acknowledge(n, i) => n in c.peers && i < c.peers[n].applied
    case Restart(n) => n in c.peers
    case Begin(id, n) => id !in c.queries && n in c.peers
    case Advance(id, m) => id in c.queries && MayMove(c.peers[c.queries[id].peer], c.queries[id].phase, m)
    case Heartbeat(id, v) =>
      id in c.queries && c.queries[id].phase.Verifying? && v in c.peers && c.peers[v].term <= c.queries[id].phase.vTerm
    case FinishVerify(id) => id in c.queries && Confirmed(c, c.queries[id])
    case Propose(id, cmd) => id in c.queries && c.queries[id].phase.Upgraded? && c.peers[c.queries[id].peer].leader
    case Complete(id) => id in c.queries && Landed(c, c.queries[id])
  }

  /** A quorum answered and the node still leads the term it asked about. */
  ghost predicate Confirmed(c: Cluster, q: Query)
    requires q.peer in c.peers
  {
    q.phase.Verifying? && Quorum(c, q.phase.acks) &&
    c.peers[q.peer].leader && c.peers[q.peer].term == q.phase.vTerm
  }

  /** The proposed entry was committed where it was proposed, and applied. */
  predicate Landed(c: Cluster, q: Query)
    requires q.peer in c.peers
  {
    q.phase.Proposed? && q.phase.at < c.peers[q.peer].applied && q.phase.at < |c.committed| &&
    c.committed[q.phase.at].term == q.phase.entryTerm
  }

  function SetPeer(c: Cluster, n: nat, p: Peer): Cluster { c.(peers := c.peers[n := p]) }

  function SetPhase(c: Cluster, id: nat, ph: Phase): Cluster
    requires id in c.queries
  {
    c.(queries := c.queries[id := c.queries[id].(phase := ph)])
  }

  function AppendEntry(c: Cluster, n: nat, cmd: nat): Cluster
    requires n in c.peers
  {
    var p := c.peers[n];
    var log := p.log + [Entry(p.term, cmd)];
    SetPeer(c, n, p.(log := log)).(ledger := c.ledger[p.term := log])
  }

  function Elected(c: Cluster, n: nat): Cluster
    requires n in c.peers
  {
    var p := c.peers[n];
    SetPeer(c, n, p.(leader := true)).(chiefs := c.chiefs[p.term := n], ledger := c.ledger[p.term := p.log])
  }

  /** The leader counts entry `k - 1` as committed; the committed log grows if that is news. */
  function CommittedUpTo(c: Cluster, n: nat, q: set<nat>, k: nat): Cluster
    requires n in c.peers && k <= |c.peers[n].log|
  {
    var p := c.peers[n];
    var d := SetPeer(c, n, p.(commit := if k > p.commit then k else p.commit));
    if k > |c.committed| then d.(committed := p.log[..k], backers := q) else d
  }

  /** Queries running on a node die with it. */
  function Aborted(c: Cluster, n: nat): map<nat, Query> {
    map id | id in c.queries ::
      if c.queries[id].peer == n && !c.queries[id].phase.Rows? then c.queries[id].(phase := Error) else c.queries[id]
  }

  function Restarted(c: Cluster, n: nat): Cluster
    requires n in c.peers
  {
    SetPeer(c, n, c.peers[n].(leader := false, commit := 0, applied := 0, strong := 0)).(queries := Aborted(c, n))
  }

  /** Node `v` answers the leadership check of a query, adopting its term. */
  function Heard(c: Cluster, id: nat, v: nat): Cluster
    requires id in c.queries && c.queries[id].phase.Verifying? && v in c.peers
  {
    var ph := c.queries[id].phase;
    SetPeer(SetPhase(c, id, ph.(acks := ph.acks + {v})), v,
            if c.peers[v].term < ph.vTerm then c.peers[v].(term := ph.vTerm, leader := false) else c.peers[v])
  }

  function Begun(c: Cluster, id: nat, n: nat): Cluster {
    c.(queries := c.queries[id := Query(n, Started, c.committed, c.acked, c.backers)])
  }

  function Do(c: Cluster, s: Step): Cluster
    requires Known(c) && Enabled(c, s)
  {
    match s
    case RaiseTerm(n, t) => SetPeer(c, n, c.peers[n].(term := t, leader := false))
    case StepDown(n) => SetPeer(c, n, c.peers[n].(leader := false))
    case Elect(n, q) => Elected(c, n)
    case Replicate(n, log) => SetPeer(c, n, c.peers[n].(log := log))
    case Append(n, cmd) => AppendEntry(c, n, cmd)
    case Commit(n, q, k) => CommittedUpTo(c, n, q, k)
    case Learn(n, k) => SetPeer(c, n, c.peers[n].(commit := k))
    case Apply(n, k) => SetPeer(c, n, c.peers[n].(applied := k))
    case Acknowledge(n, i) => c.(acked := c.acked + {i})
    case Restart(n) => Restarted(c, n)
    case Begin(id, n) => Begun(c, id, n)
    case Advance(id, m) => SetPhase(c, id, Moved(c.peers[c.queries[id].peer], c.queries[id].phase, m))
    case Heartbeat(id, v) => Heard(c, id, v)
    case FinishVerify(id) =>
      var ph := c.queries[id].phase;
      SetPhase(c, id, Verified(ph.readTerm, ph.readIndex, ph.vTerm))
    case Propose(id, cmd) => AppendEntry(SetPhase(c, id, Proposal(c, c.queries[id])), c.queries[id].peer, cmd)
    case Complete(id) => Completed(c, id)
  }

  function Proposal(c: Cluster, q: Query): Phase
    requires q.peer in c.peers && q.phase.Upgraded?
  {
    Proposed(q.phase.readTerm, |c.peers[q.peer].log|, c.peers[q.peer].term)
  }

  function Completed(c: Cluster, id: nat): Cluster
    requires id in c.queries && c.queries[id].phase.Proposed? && c.queries[id].peer in c.peers
  {
    var n, ph := c.queries[id].peer, c.queries[id].phase;
    SetPeer(SetPhase(c, id, Rows(ph.at)), n, c.peers[n].(strong := ph.readTerm))
  }

  /** Queries run on nodes of the cluster. */
  predicate Known(c: Cluster) {
    forall id :: id in c.queries ==> c.queries[id].peer in c.peers
  }

  // ------------------------------------------------- whole runs

  ghost predicate Init(c: Cluster) {
    c.voters != {} && c.voters <= c.peers.Keys && c.backers == c.voters &&
    c.committed == [] && c.chiefs == map[] && c.ledger == map[] && c.acked == {} && c.queries == map[] &&
    (forall n :: n in c.peers ==> var p := c.peers[n]; !p.leader && p.commit == 0 && p.applied == 0 && p.strong == 0)
  }

  ghost predicate Legal(c: Cluster, run: seq<Step>)
    decreases |run|
  {
    run == [] || (Known(c) && Enabled(c, run[0]) && Legal(Do(c, run[0]), run[1..]))
  }

  function After(c: Cluster, run: seq<Step>): Cluster
    requires Legal(c, run)
    decreases |run|
  {
    if run == [] then c else After(Do(c, run[0]), run[1..])
  }
}
