/** The invariant behind linearizable reads, and what it gives over whole runs. */
module LinearProof {
  import opened LinearRead

  // ------------------------------------------------- the invariant

  ghost predicate LogInv(c: Cluster) {
    c.chiefs.Keys == c.ledger.Keys &&
    (forall t :: t in c.ledger ==> Matches(c, c.ledger[t]) && TermsUpTo(c.ledger[t], t)) &&
    (c.committed != [] ==> LastTerm(c.committed) in c.ledger && c.committed <= c.ledger[LastTerm(c.committed)]) &&
    Quorum(c, c.backers) && Reached(c, c.backers, LastTerm(c.committed)) &&
    (forall i :: i in c.acked ==> i < |c.committed|)
  }

  /** Node `n` led some term between `r` and its current one and an entry of that
      term lies below index `k` of the committed log. */
  ghost predicate LedSince(c: Cluster, n: nat, r: nat, k: nat)
    requires n in c.peers
  {
    exists j :: 0 <= j < k && j < |c.committed| && r <= c.committed[j].term <= c.peers[n].term &&
                c.committed[j].term in c.chiefs && c.chiefs[c.committed[j].term] == n
  }

  ghost predicate PeerInv(c: Cluster, n: nat)
    requires n in c.peers
  {
    var p := c.peers[n];
    p.applied <= p.commit <= |c.committed| &&
    (p.leader ==>
       p.term > 0 && p.term in c.chiefs && c.chiefs[p.term] == n && p.term in c.ledger && c.ledger[p.term] == p.log) &&
    (p.leader && c.committed != [] && LastTerm(c.committed) == p.term ==> p.commit == |c.committed|) &&
    (p.strong > 0 ==> LedSince(c, n, p.strong, p.commit))
  }

  /** If the query's node leads the term of everything committed at the start, `k` covers it. */
  ghost predicate Covers(c: Cluster, q: Query, k: nat)
    requires q.peer in c.peers
  {
    q.begin != [] && c.peers[q.peer].leader && c.peers[q.peer].term == LastTerm(q.begin) ==> k >= |q.begin|
  }

  ghost predicate PhaseInv(c: Cluster, q: Query)
    requires q.peer in c.peers
  {
    var n := q.peer;
    var p := c.peers[n];
    match q.phase
    case Started => Covers(c, q, p.commit)
    case HaveTerm(r) => r <= p.term && Covers(c, q, p.commit)
    case Linear(r) => r <= p.term && Covers(c, q, p.commit) && (r > 0 ==> LedSince(c, n, r, p.commit))
    case Indexed(r, i) => r <= p.term && Covers(c, q, i) && (r > 0 ==> LedSince(c, n, r, i))
    case Verifying(r, i, v, acks) =>
      r <= v <= p.term && Covers(c, q, i) && (r > 0 ==> LedSince(c, n, r, i)) &&
      (forall a :: a in acks && a in q.quorum ==> LastTerm(q.begin) <= v)
    case Verified(r, i, v) => r <= v <= p.term && (v == r ==> i >= |q.begin|)
    case Waiting(i) => i >= |q.begin|
    case Upgraded(r) => r <= p.term
    case Proposed(r, at, et) =>
      r <= et <= p.term && et in c.chiefs && c.chiefs[et] == n &&
      (at < |q.begin| ==> q.begin[at].term != et)
    case Rows(k) => |q.begin| <= k <= |c.committed|
    case Error => true
  }

  ghost predicate QueryInv(c: Cluster, q: Query) {
    q.peer in c.peers && q.begin <= c.committed && TermsUpTo(q.begin, LastTerm(q.begin)) &&
    (q.begin != [] ==> LastTerm(q.begin) in c.chiefs) &&
    (forall i :: i in q.acked ==> i < |q.begin|) &&
    Quorum(c, q.quorum) && Reached(c, q.quorum, LastTerm(q.begin)) &&
    PhaseInv(c, q)
  }

  ghost predicate Inv(c: Cluster) {
    LogInv(c) && (forall n :: n in c.peers ==> PeerInv(c, n)) &&
    (forall id :: id in c.queries ==> QueryInv(c, c.queries[id]))
  }

  // ------------------------------------------------- what steps leave alone

  /** History only grows. */
  ghost predicate Grows(c: Cluster, d: Cluster) {
    d.voters == c.voters && c.committed <= d.committed && d.peers.Keys == c.peers.Keys &&
    (forall n :: n in c.peers ==> c.peers[n].term <= d.peers[n].term) &&
    (forall t :: t in c.chiefs ==> t in d.chiefs && d.chiefs[t] == c.chiefs[t]) &&
    (forall t :: t in c.ledger ==> t in d.ledger && c.ledger[t] <= d.ledger[t])
  }

  /** Node `n` kept running, and leads no term it did not lead already, unless that term is new. */
  ghost predicate Stays(c: Cluster, d: Cluster, n: nat)
    requires n in c.peers && n in d.peers
  {
    c.peers[n].commit <= d.peers[n].commit &&
    (d.peers[n].leader && d.peers[n].term in c.chiefs ==> c.peers[n].leader && c.peers[n].term == d.peers[n].term)
  }

  lemma LedSinceStable(c: Cluster, d: Cluster, n: nat, r: nat, k: nat, k': nat)
    requires Grows(c, d) && n in c.peers && LedSince(c, n, r, k) && k <= k'
    ensures LedSince(d, n, r, k')
  {
    var j :| 0 <= j < k && j < |c.committed| && r <= c.committed[j].term <= c.peers[n].term &&
             c.committed[j].term in c.chiefs && c.chiefs[c.committed[j].term] == n;
    assert d.committed[j] == c.committed[j];
  }

  lemma QueryStable(c: Cluster, d: Cluster, q: Query)
    requires Grows(c, d) && QueryInv(c, q) && Stays(c, d, q.peer)
    ensures QueryInv(d, q)
  {
    var n := q.peer;
    match q.phase
    case Linear(r) => if r > 0 { LedSinceStable(c, d, n, r, c.peers[n].commit, d.peers[n].commit); }
    case Indexed(r, i) => if r > 0 { LedSinceStable(c, d, n, r, i, i); }
    case Verifying(r, i, v, acks) => if r > 0 { LedSinceStable(c, d, n, r, i, i); }
    case _ =>
  }

  lemma MatchesStable(c: Cluster, d: Cluster, log: seq<Entry>)
    requires Grows(c, d) && Matches(c, log)
    ensures Matches(d, log)
  {
    forall i | 0 <= i < |log|
      ensures log[i].term in d.ledger && i < |d.ledger[log[i].term]| && d.ledger[log[i].term][i] == log[i]
    {
      var t := log[i].term;
      assert c.ledger[t] <= d.ledger[t];
    }
  }

  /** A node whose own record is unchanged keeps its invariant while the committed log stands. */
  lemma PeerStable(c: Cluster, d: Cluster, n: nat)
    requires Grows(c, d) && n in c.peers && PeerInv(c, n) && d.peers[n] == c.peers[n]
    requires d.committed == c.committed
    requires c.peers[n].leader ==> c.peers[n].term in d.ledger && d.ledger[c.peers[n].term] == c.ledger[c.peers[n].term]
    ensures PeerInv(d, n)
  {
    var p := c.peers[n];
    if p.strong > 0 { LedSinceStable(c, d, n, p.strong, p.commit, p.commit); }
  }

  // ------------------------------------------------- every step keeps the invariant

  /** Queries that are not touched stay good while history grows and their nodes keep running. */
  lemma OthersStable(c: Cluster, d: Cluster)
    requires Inv(c) && Grows(c, d) && d.queries == c.queries
    requires forall n :: n in c.peers ==> Stays(c, d, n)
    ensures forall id :: id in d.queries ==> QueryInv(d, d.queries[id])
  {
    forall id | id in d.queries ensures QueryInv(d, d.queries[id]) {
      assert QueryInv(c, c.queries[id]);
      QueryStable(c, d, c.queries[id]);
    }
  }

  lemma LogStable(c: Cluster, d: Cluster)
    requires LogInv(c) && Grows(c, d) && d.chiefs == c.chiefs && d.ledger == c.ledger
    requires d.committed == c.committed && d.backers == c.backers && d.acked == c.acked
    ensures LogInv(d)
  {
    assert forall log :: Matches(c, log) <==> Matches(d, log);
  }

  /** A change to one node that loses neither term nor commit index, and grants no leadership. */
  lemma TouchPeer(c: Cluster, n: nat, p: Peer)
    requires Inv(c) && n in c.peers && c.peers[n].term <= p.term && c.peers[n].commit <= p.commit
    requires p.leader ==> c.peers[n].leader && c.peers[n].term == p.term
    requires PeerInv(SetPeer(c, n, p), n)
    ensures Inv(SetPeer(c, n, p)) && Grows(c, SetPeer(c, n, p))
  {
    hide PhaseInv, PeerInv;
    var d := SetPeer(c, n, p);
    assert d.peers.Keys == c.peers.Keys;
    LogStable(c, d);
    forall m | m in d.peers && m != n ensures PeerInv(d, m) { OtherPeer(c, d, m); }
    OthersStable(c, d);
  }

  lemma OtherPeer(c: Cluster, d: Cluster, m: nat)
    requires Inv(c) && Grows(c, d) && m in c.peers && d.peers[m] == c.peers[m]
    requires d.committed == c.committed && d.ledger == c.ledger
    ensures PeerInv(d, m)
  {
    assert PeerInv(c, m);
    PeerStable(c, d, m);
  }

  lemma TouchQuery(c: Cluster, id: nat, q: Query)
    requires Inv(c) && QueryInv(c, q)
    ensures Inv(c.(queries := c.queries[id := q]))
  {
    var d := c.(queries := c.queries[id := q]);
    assert Grows(c, d);
    hide PhaseInv, LogInv, PeerInv, QueryInv, Grows, Quorum;
    LogStable(c, d);
    forall m | m in d.peers ensures PeerInv(d, m) { OtherPeer(c, d, m); }
    forall i | i in d.queries ensures QueryInv(d, d.queries[i]) {
      var r := d.queries[i];
      assert QueryInv(c, r);
      SameWorld(c, d, r);
    }
  }

  lemma SameWorld(c: Cluster, d: Cluster, q: Query)
    requires QueryInv(c, q) && Grows(c, d) && d.peers == c.peers
    ensures QueryInv(d, q)
  {
    hide PhaseInv, Grows, Quorum, Reached;
    assert q.peer in d.peers ==> Stays(c, d, q.peer);
    QueryStable(c, d, q);
  }

  /** What a step on node `n` that leaves all queries alone must establish. */
  lemma KeepsFrom(c: Cluster, d: Cluster)
    requires Inv(c) && Quiet(c, d) && LogInv(d) && (forall m :: m in d.peers ==> PeerInv(d, m))
    ensures Inv(d)
  {
    hide PhaseInv, Quorum, LogInv, PeerInv;
    OthersStable(c, d);
  }

  /** History grows, every node keeps running, no query moves. */
  ghost predicate Quiet(c: Cluster, d: Cluster) {
    Grows(c, d) && d.queries == c.queries && (forall n :: n in c.peers ==> Stays(c, d, n))
  }

  lemma ElectKeeps(c: Cluster, n: nat, q: set<nat>)
    requires Inv(c) && MayLead(c, n, q)
    ensures Inv(Elected(c, n))
  {
    hide PhaseInv, Quorum, LogInv, PeerInv, Matches, Reached, TermsUpTo, Grows, QueryInv;
    var d := Elected(c, n);
    ElectQuiet(c, n);
    ElectLogs(c, n);
    forall m | m in d.peers ensures PeerInv(d, m) {
      assert PeerInv(c, m);
      ElectPeers(c, n, m);
    }
    KeepsFrom(c, d);
  }

  lemma ElectQuiet(c: Cluster, n: nat)
    requires LogInv(c) && n in c.peers && c.peers[n].term !in c.chiefs
    ensures Quiet(c, Elected(c, n))
  {
    hide Matches, TermsUpTo, Quorum, Reached;
    var d := Elected(c, n);
    assert d.peers.Keys == c.peers.Keys && c.peers[n].term !in c.ledger;
  }

  lemma ElectLogs(c: Cluster, n: nat)
    requires LogInv(c) && n in c.peers && c.peers[n].term !in c.chiefs && Grows(c, Elected(c, n))
    requires Matches(c, c.peers[n].log) && TermsUpTo(c.peers[n].log, c.peers[n].term)
    ensures LogInv(Elected(c, n))
  {
    hide Matches, TermsUpTo;
    var d := Elected(c, n);
    assert c.peers[n].term !in c.ledger && Quorum(d, d.backers) && Reached(d, d.backers, LastTerm(d.committed));
    assert d.chiefs.Keys == d.ledger.Keys;
    hide Quorum, Reached;
    forall u | u in d.ledger ensures Matches(d, d.ledger[u]) && TermsUpTo(d.ledger[u], u) {
      MatchesStable(c, d, if u in c.ledger then c.ledger[u] else c.peers[n].log);
    }
  }

  lemma ElectPeers(c: Cluster, n: nat, m: nat)
    requires n in c.peers && m in c.peers && PeerInv(c, m) && LogInv(c) && Grows(c, Elected(c, n))
    requires !c.peers[n].leader && c.peers[n].term > 0 && c.peers[n].term !in c.chiefs
    ensures PeerInv(Elected(c, n), m)
  {
    hide LedSince, Matches, TermsUpTo, Quorum, Reached;
    var d, p := Elected(c, n), c.peers[m];
    if p.strong > 0 { LedSinceStable(c, d, m, p.strong, p.commit, p.commit); }
  }

  lemma AppendKeeps(c: Cluster, n: nat, cmd: nat)
    requires Inv(c) && n in c.peers && c.peers[n].leader
    ensures Inv(AppendEntry(c, n, cmd)) && Quiet(c, AppendEntry(c, n, cmd))
  {
    hide PhaseInv, Quorum, LogInv, PeerInv, Matches, Reached, TermsUpTo, Grows, QueryInv;
    var d := AppendEntry(c, n, cmd);
    assert PeerInv(c, n);
    AppendQuiet(c, n, cmd);
    AppendLogs(c, n, cmd);
    forall m | m in d.peers ensures PeerInv(d, m) {
      assert PeerInv(c, m);
      AppendPeers(c, n, cmd, m);
    }
    KeepsFrom(c, d);
  }

  lemma AppendQuiet(c: Cluster, n: nat, cmd: nat)
    requires n in c.peers && PeerInv(c, n) && c.peers[n].leader
    ensures Quiet(c, AppendEntry(c, n, cmd))
  {
    hide LedSince;
    var d := AppendEntry(c, n, cmd);
    assert d.peers.Keys == c.peers.Keys && c.peers[n].log <= d.ledger[c.peers[n].term];
  }

  lemma AppendLogs(c: Cluster, n: nat, cmd: nat)
    requires LogInv(c) && n in c.peers && PeerInv(c, n) && c.peers[n].leader && Grows(c, AppendEntry(c, n, cmd))
    ensures LogInv(AppendEntry(c, n, cmd))
  {
    hide LedSince, Matches;
    var d, p := AppendEntry(c, n, cmd), c.peers[n];
    assert Quorum(d, d.backers) && Reached(d, d.backers, LastTerm(d.committed));
    assert d.ledger.Keys == c.ledger.Keys;
    assert c.committed != [] ==> c.committed <= d.ledger[LastTerm(c.committed)];
    hide Quorum, Reached;
    forall u | u in d.ledger ensures Matches(d, d.ledger[u]) && TermsUpTo(d.ledger[u], u) {
      MatchesStable(c, d, c.ledger[u]);
      if u == p.term { AppendMatches(d, p.log, Entry(p.term, cmd)); }
    }
  }

  lemma AppendMatches(d: Cluster, log: seq<Entry>, e: Entry)
    requires Matches(d, log) && e.term in d.ledger && d.ledger[e.term] == log + [e]
    ensures Matches(d, log + [e])
  {
  }

  lemma AppendPeers(c: Cluster, n: nat, cmd: nat, m: nat)
    requires n in c.peers && m in c.peers && PeerInv(c, m) && PeerInv(c, n) && c.peers[n].leader
    requires Grows(c, AppendEntry(c, n, cmd))
    ensures PeerInv(AppendEntry(c, n, cmd), m)
  {
    hide LedSince;
    var d, p := AppendEntry(c, n, cmd), c.peers[m];
    if p.strong > 0 { LedSinceStable(c, d, m, p.strong, p.commit, p.commit); }
  }

  lemma CommitKeeps(c: Cluster, n: nat, q: set<nat>, k: nat)
    requires Inv(c) && MayCommit(c, n, q, k)
    ensures Inv(CommittedUpTo(c, n, q, k))
  {
    hide PhaseInv, Quorum, LogInv, PeerInv, Matches, Reached, TermsUpTo, Grows, QueryInv;
    var d := CommittedUpTo(c, n, q, k);
    assert PeerInv(c, n);
    CommitQuiet(c, n, q, k);
    CommitLogs(c, n, q, k);
    forall m | m in d.peers ensures PeerInv(d, m) {
      assert PeerInv(c, m);
      CommitPeers(c, n, q, k, m);
    }
    KeepsFrom(c, d);
  }

  lemma CommitQuiet(c: Cluster, n: nat, q: set<nat>, k: nat)
    requires MayCommit(c, n, q, k)
    ensures Quiet(c, CommittedUpTo(c, n, q, k))
  {
    var d := CommittedUpTo(c, n, q, k);
    assert d.peers.Keys == c.peers.Keys;
  }

  lemma CommitLogs(c: Cluster, n: nat, q: set<nat>, k: nat)
    requires LogInv(c) && MayCommit(c, n, q, k) && PeerInv(c, n) && Grows(c, CommittedUpTo(c, n, q, k))
    ensures LogInv(CommittedUpTo(c, n, q, k))
  {
    hide LedSince;
    var d := CommittedUpTo(c, n, q, k);
    forall u | u in d.ledger ensures Matches(d, d.ledger[u]) { MatchesStable(c, d, c.ledger[u]); }
    hide Matches;
    assert k > |c.committed| ==> LastTerm(d.committed) == c.peers[n].term && d.committed <= d.ledger[c.peers[n].term];
  }

  lemma CommitPeers(c: Cluster, n: nat, q: set<nat>, k: nat, m: nat)
    requires LogInv(c) && MayCommit(c, n, q, k) && m in c.peers && PeerInv(c, m) && PeerInv(c, n)
    requires Grows(c, CommittedUpTo(c, n, q, k))
    ensures PeerInv(CommittedUpTo(c, n, q, k), m)
  {
    hide LedSince, Matches, Quorum, Reached;
    var d, p := CommittedUpTo(c, n, q, k), c.peers[m];
    if p.strong > 0 { LedSinceStable(c, d, m, p.strong, p.commit, d.peers[m].commit); }
    assert k > |c.committed| ==> LastTerm(d.committed) == c.peers[n].term;
  }

  lemma AcknowledgeKeeps(c: Cluster, n: nat, i: nat)
    requires Inv(c) && n in c.peers && i < c.peers[n].applied
    ensures Inv(c.(acked := c.acked + {i}))
  {
    hide PhaseInv, QueryInv, Matches, LedSince;
    var d := c.(acked := c.acked + {i});
    assert PeerInv(c, n);
    assert forall log :: Matches(c, log) <==> Matches(d, log) by { SameLedger(c, d); }
    assert LogInv(d);
    hide LogInv, PeerInv;
    forall m | m in d.peers ensures PeerInv(d, m) { OtherPeer(c, d, m); }
    KeepsFrom(c, d);
  }

  lemma SameLedger(c: Cluster, d: Cluster)
    requires d.ledger == c.ledger
    ensures forall log :: Matches(c, log) <==> Matches(d, log)
  {
  }

  lemma RestartKeeps(c: Cluster, n: nat)
    requires Inv(c) && n in c.peers
    ensures Inv(Restarted(c, n))
  {
    hide PhaseInv, LogInv, Quorum, LedSince, QueryInv, Grows, PeerInv;
    var d := Restarted(c, n);
    RestartGrows(c, n);
    LogStable(c, d);
    forall m | m in d.peers ensures PeerInv(d, m) {
      if m == n { RestartedPeer(c, n); } else { OtherPeer(c, d, m); }
    }
    forall id | id in d.queries ensures QueryInv(d, d.queries[id]) { RestartQuery(c, n, id); }
  }

  lemma RestartGrows(c: Cluster, n: nat)
    requires n in c.peers
    ensures Grows(c, Restarted(c, n)) && Restarted(c, n).peers.Keys == c.peers.Keys
  {
    assert Restarted(c, n).peers.Keys == c.peers.Keys;
  }

  lemma RestartedPeer(c: Cluster, n: nat)
    requires n in c.peers
    ensures PeerInv(Restarted(c, n), n)
  {
  }

  lemma RestartQuery(c: Cluster, n: nat, id: nat)
    requires Inv(c) && n in c.peers && Grows(c, Restarted(c, n)) && id in c.queries
    ensures QueryInv(Restarted(c, n), Restarted(c, n).queries[id])
  {
    hide LogInv, PeerInv, PhaseInv, QueryInv, Grows;
    assert QueryInv(c, c.queries[id]);
    if c.queries[id].peer == n {
      LostQuery(c, Restarted(c, n), c.queries[id]);
    } else {
      QueryStable(c, Restarted(c, n), c.queries[id]);
    }
  }

  /** Whatever happens to its node, a query that is over keeps what it was promised. */
  lemma LostQuery(c: Cluster, d: Cluster, q: Query)
    requires QueryInv(c, q) && Grows(c, d)
    ensures QueryInv(d, if q.phase.Rows? then q else q.(phase := Error))
  {
    hide LedSince, Matches;
  }

  lemma BeginKeeps(c: Cluster, id: nat, n: nat)
    requires Inv(c) && n in c.peers
    ensures Inv(Begun(c, id, n)) && Known(Begun(c, id, n))
  {
    hide LedSince, Matches, Quorum, Reached;
    assert PeerInv(c, n);
    TouchQuery(c, id, Query(n, Started, c.committed, c.acked, c.backers));
    InvKnown(Begun(c, id, n));
  }

  /** A query that moves on within an unchanged cluster. */
  lemma PhaseMoves(c: Cluster, id: nat, ph: Phase)
    requires Inv(c) && id in c.queries
    requires c.queries[id].peer in c.peers && PhaseInv(c, c.queries[id].(phase := ph))
    ensures Inv(SetPhase(c, id, ph))
  {
    hide PhaseInv, LogInv, PeerInv, Quorum, Reached, TermsUpTo;
    assert QueryInv(c, c.queries[id]);
    TouchQuery(c, id, c.queries[id].(phase := ph));
  }

  /** The heart of the matter: a leader confirmed by a quorum in the term in which it
      has itself committed knows of everything committed when the query began. */
  lemma VerifiedCovers(c: Cluster, q: Query)
    requires LogInv(c) && QueryInv(c, q) && PeerInv(c, q.peer) && q.phase.Verifying? && Quorum(c, q.phase.acks)
    requires c.peers[q.peer].leader && c.peers[q.peer].term == q.phase.vTerm == q.phase.readTerm
    ensures q.phase.readIndex >= |q.begin|
  {
    QuorumsMeet(c, q.phase.acks, q.quorum);
    hide Quorum, Reached, Matches;
    assert LastTerm(q.begin) <= q.phase.vTerm;
    assert forall i :: 0 <= i < |q.begin| ==> q.begin[i] == c.committed[i];
    var j :| 0 <= j < q.phase.readIndex && j < |c.committed| && c.committed[j].term == q.phase.vTerm;
  }

  lemma FinishKeeps(c: Cluster, id: nat)
    requires Inv(c) && id in c.queries && c.queries[id].peer in c.peers && Confirmed(c, c.queries[id])
    ensures var ph := c.queries[id].phase; Inv(SetPhase(c, id, Verified(ph.readTerm, ph.readIndex, ph.vTerm)))
  {
    hide LogInv, LedSince, Quorum, Reached, TermsUpTo;
    var q := c.queries[id];
    assert QueryInv(c, q) && PeerInv(c, q.peer);
    if q.phase.vTerm == q.phase.readTerm { VerifiedCovers(c, q); }
    hide QueryInv, PeerInv;
    PhaseMoves(c, id, Verified(q.phase.readTerm, q.phase.readIndex, q.phase.vTerm));
  }

  lemma ProposeKeeps(c: Cluster, id: nat, cmd: nat)
    requires Inv(c) && id in c.queries && c.queries[id].phase.Upgraded?
    requires c.queries[id].peer in c.peers && c.peers[c.queries[id].peer].leader
    ensures Inv(AppendEntry(SetPhase(c, id, Proposal(c, c.queries[id])), c.queries[id].peer, cmd))
  {
    hide LogInv, LedSince, Quorum, Reached, TermsUpTo;
    var q := c.queries[id];
    assert QueryInv(c, q) && PeerInv(c, q.peer);
    NewSlot(c, q);
    hide QueryInv, PeerInv;
    PhaseMoves(c, id, Proposal(c, q));
    hide PhaseInv;
    AppendKeeps(SetPhase(c, id, Proposal(c, q)), q.peer, cmd);
  }

  /** No committed entry of the leader's term sits where its next entry goes. */
  lemma NewSlot(c: Cluster, q: Query)
    requires LogInv(c) && QueryInv(c, q) && PeerInv(c, q.peer) && c.peers[q.peer].leader
    ensures var p := c.peers[q.peer]; |p.log| < |q.begin| ==> q.begin[|p.log|].term != p.term
  {
    hide PhaseInv, Quorum, Reached, LedSince;
    var at := |c.peers[q.peer].log|;
    if at < |q.begin| {
      assert q.begin[at] == c.committed[at] == c.ledger[LastTerm(c.committed)][at];
    }
  }

  /** A strong read that was committed through the leader's own log leaves a good mark. */
  lemma StrongKeeps(c: Cluster, n: nat, r: nat, at: nat)
    requires Inv(c) && n in c.peers && at < c.peers[n].applied && at < |c.committed|
    requires r <= c.committed[at].term <= c.peers[n].term
    requires c.committed[at].term in c.chiefs && c.chiefs[c.committed[at].term] == n
    ensures Inv(SetPeer(c, n, c.peers[n].(strong := r)))
  {
    hide LogInv, QueryInv, Quorum, Reached;
    var p := c.peers[n].(strong := r);
    var d := SetPeer(c, n, p);
    assert PeerInv(c, n);
    assert d.committed[at] == c.committed[at];
    assert PeerInv(d, n);
    hide LedSince, PeerInv;
    TouchPeer(c, n, p);
  }

  lemma CompleteKeeps(c: Cluster, id: nat)
    requires Inv(c) && id in c.queries && c.queries[id].peer in c.peers && Landed(c, c.queries[id])
    ensures Inv(Completed(c, id))
  {
    hide LogInv, Quorum, Reached, TermsUpTo, LedSince;
    var q := c.queries[id];
    assert QueryInv(c, q) && PeerInv(c, q.peer);
    assert forall i :: 0 <= i < |q.begin| ==> q.begin[i] == c.committed[i];
    PhaseMoves(c, id, Rows(q.phase.at));
    hide PhaseInv, QueryInv, PeerInv;
    StrongKeeps(SetPhase(c, id, Rows(q.phase.at)), q.peer, q.phase.readTerm, q.phase.at);
  }

  /** A node that changes without gaining leadership or losing its place. */
  lemma NodeKeeps(c: Cluster, n: nat, p: Peer)
    requires Inv(c) && n in c.peers && c.peers[n].term <= p.term && c.peers[n].commit <= p.commit
    requires p.applied <= p.commit <= |c.committed| && p.strong == c.peers[n].strong
    requires p.leader ==> c.peers[n].leader && p.term == c.peers[n].term && p.log == c.peers[n].log
    ensures Inv(SetPeer(c, n, p))
  {
    hide LogInv, QueryInv, Matches, LedSince;
    var d := SetPeer(c, n, p);
    assert PeerInv(c, n);
    assert d.peers.Keys == c.peers.Keys;
    if p.strong > 0 { LedSinceStable(c, d, n, p.strong, c.peers[n].commit, p.commit); }
    assert PeerInv(d, n);
    hide PeerInv, Grows;
    TouchPeer(c, n, p);
  }

  lemma HeartbeatKeeps(c: Cluster, id: nat, v: nat)
    requires Inv(c) && id in c.queries && c.queries[id].phase.Verifying?
    requires v in c.peers && c.peers[v].term <= c.queries[id].phase.vTerm
    ensures Inv(Heard(c, id, v))
  {
    hide LogInv, PeerInv, QueryInv, PhaseInv;
    var ph := c.queries[id].phase;
    var p := if c.peers[v].term < ph.vTerm then c.peers[v].(term := ph.vTerm, leader := false) else c.peers[v];
    var d := SetPeer(c, v, p);
    NodeFacts(c, v);
    NodeKeeps(c, v, p);
    assert QueryInv(d, d.queries[id]);
    HeardInv(d, d.queries[id], v);
    PhaseMoves(d, id, ph.(acks := ph.acks + {v}));
    assert SetPhase(d, id, ph.(acks := ph.acks + {v})) == Heard(c, id, v);
  }

  lemma HeardInv(d: Cluster, q: Query, v: nat)
    requires QueryInv(d, q) && q.phase.Verifying? && v in d.peers && d.peers[v].term == q.phase.vTerm
    ensures q.peer in d.peers && PhaseInv(d, q.(phase := q.phase.(acks := q.phase.acks + {v})))
  {
    hide LedSince, Quorum, TermsUpTo;
  }

  lemma NodeFacts(c: Cluster, n: nat)
    requires Inv(c) && n in c.peers
    ensures c.peers[n].applied <= c.peers[n].commit <= |c.committed|
  {
    assert PeerInv(c, n);
  }

  lemma InvKnown(c: Cluster)
    requires Inv(c)
    ensures Known(c)
  {
    hide LogInv, PeerInv, PhaseInv;
    forall id | id in c.queries ensures c.queries[id].peer in c.peers { assert QueryInv(c, c.queries[id]); }
  }

  lemma MoveKeeps(c: Cluster, id: nat, m: Move)
    requires Inv(c) && id in c.queries && c.queries[id].peer in c.peers
    requires MayMove(c.peers[c.queries[id].peer], c.queries[id].phase, m)
    ensures Inv(SetPhase(c, id, Moved(c.peers[c.queries[id].peer], c.queries[id].phase, m)))
  {
    hide LogInv, PhaseInv, Quorum, Reached, TermsUpTo, LedSince;
    var q := c.queries[id];
    assert QueryInv(c, q) && PeerInv(c, q.peer);
    MovedInv(c, q, m);
    hide QueryInv, PeerInv;
    PhaseMoves(c, id, Moved(c.peers[q.peer], q.phase, m));
  }

  lemma MovedInv(c: Cluster, q: Query, m: Move)
    requires q.peer in c.peers && PhaseInv(c, q) && PeerInv(c, q.peer) && MayMove(c.peers[q.peer], q.phase, m)
    ensures PhaseInv(c, q.(phase := Moved(c.peers[q.peer], q.phase, m)))
  {
    hide LedSince;
  }

  lemma StepKeeps(c: Cluster, s: Step)
    requires Inv(c) && Known(c) && Enabled(c, s)
    ensures Inv(Do(c, s)) && Known(Do(c, s))
  {
    hide Inv, Grows;
    match s {
      case Elect(n, q) => ElectKeeps(c, n, q);
      case Append(n, cmd) => AppendKeeps(c, n, cmd);
      case Commit(n, q, k) => CommitKeeps(c, n, q, k);
      case Acknowledge(n, i) => AcknowledgeKeeps(c, n, i);
      case Restart(n) => RestartKeeps(c, n);
      case Begin(id, n) => BeginKeeps(c, id, n);
      case Advance(id, m) => MoveKeeps(c, id, m);
      case Heartbeat(id, v) => HeartbeatKeeps(c, id, v);
      case FinishVerify(id) => FinishKeeps(c, id);
      case Propose(id, cmd) => ProposeKeeps(c, id, cmd);
      case Complete(id) => CompleteKeeps(c, id);
      case _ =>
        NodeFacts(c, s.n);
        NodeKeeps(c, s.n, Do(c, s).peers[s.n]);
    }
    InvKnown(Do(c, s));
  }

  // ------------------------------------------------- what whole runs guarantee

  lemma InitInv(c: Cluster)
    requires Init(c)
    ensures Inv(c) && Known(c)
  {
    assert Quorum(c, c.backers) by {
      var v :| v in c.voters;
      assert |c.voters| > 0;
    }
  }

  lemma {:induction false} RunKeeps(c: Cluster, run: seq<Step>)
    requires Inv(c) && Known(c) && Legal(c, run)
    ensures Inv(After(c, run)) && Known(After(c, run)) && Remembers(c, After(c, run))
    decreases |run|
  {
    hide Inv, Enabled, Do;
    if run != [] {
      StepKeeps(c, run[0]);
      StepRemembers(c, run[0]);
      RunKeeps(Do(c, run[0]), run[1..]);
    }
  }

  /** Queries keep the record of their beginning, and results once returned stand. */
  predicate Remembers(c: Cluster, d: Cluster) {
    forall id :: id in c.queries ==> id in d.queries && SameStart(c.queries[id], d.queries[id])
  }

  predicate SameStart(q: Query, r: Query) {
    r.peer == q.peer && r.begin == q.begin && r.acked == q.acked && (q.phase.Rows? ==> r.phase == q.phase)
  }

  lemma StepRemembers(c: Cluster, s: Step)
    requires Known(c) && Enabled(c, s)
    ensures Remembers(c, Do(c, s))
  {
    hide Quorum, MayLead, MayCommit, Reached, Matches;
  }

  lemma ResultFacts(c: Cluster, id: nat)
    requires Inv(c) && id in c.queries && c.queries[id].phase.Rows?
    ensures |c.queries[id].begin| <= c.queries[id].phase.upTo <= |c.committed|
  {
    assert QueryInv(c, c.queries[id]);
  }

  lemma AckedAreCommitted(c: Cluster)
    requires Inv(c)
    ensures forall i :: i in c.acked ==> i < |c.committed|
  {
  }

  lemma ReadFrom(start: Cluster, id: nat, n: nat, after: seq<Step>)
    requires Inv(start) && n in start.peers && Legal(Begun(start, id, n), after)
    ensures var end := After(Begun(start, id, n), after);
            id in end.queries && (end.queries[id].phase.Rows? ==>
              |start.committed| <= end.queries[id].phase.upTo <= |end.committed|)
  {
    hide Inv, Legal, After;
    var mid := Begun(start, id, n);
    BeginKeeps(start, id, n);
    RunKeeps(mid, after);
    var end := After(mid, after);
    assert id in mid.queries && SameStart(mid.queries[id], end.queries[id]);
    if end.queries[id].phase.Rows? { ResultFacts(end, id); }
  }

  /** Every read sees every write acknowledged before it began, and never less than a read
      that had returned before it began; and nothing but committed entries. */
  lemma ReadsAreLinearizable(c: Cluster, before: seq<Step>, id: nat, n: nat, after: seq<Step>, other: nat)
    requires Init(c) && Legal(c, before)
    requires n in After(c, before).peers && Legal(Begun(After(c, before), id, n), after)
    ensures var start := After(c, before);
            var end := After(Begun(start, id, n), after);
            id in end.queries && (end.queries[id].phase.Rows? ==>
              (forall i :: i in start.acked ==> i < end.queries[id].phase.upTo) &&
              (other in start.queries && start.queries[other].phase.Rows? ==>
                start.queries[other].phase.upTo <= end.queries[id].phase.upTo) &&
              |start.committed| <= end.queries[id].phase.upTo <= |end.committed|)
  {
    InitInv(c);
    hide Inv, Init, Legal, After;
    RunKeeps(c, before);
    var start := After(c, before);
    AckedAreCommitted(start);
    if other in start.queries && start.queries[other].phase.Rows? { ResultFacts(start, other); }
    ReadFrom(start, id, n, after);
  }

  /** What the recorded strong-read term means: a node whose record equals its current term
      has committed an entry as the leader of that very term. */
  lemma StrongTermMeansCommitted(c: Cluster, run: seq<Step>, n: nat)
    requires Init(c) && Legal(c, run) && n in After(c, run).peers
    requires After(c, run).peers[n].strong == After(c, run).peers[n].term > 0
    ensures var d := After(c, run);
            d.peers[n].term in d.chiefs && d.chiefs[d.peers[n].term] == n &&
            exists j :: 0 <= j < d.peers[n].commit && j < |d.committed| && d.committed[j].term == d.peers[n].term
  {
    hide Legal, After, Init, LogInv, QueryInv, Remembers, Known;
    InitInv(c);
    RunKeeps(c, run);
    assert PeerInv(After(c, run), n);
  }
}
