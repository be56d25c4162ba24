/** Replica election: masters vote at most once per epoch, a replica counts the votes it receives and takes over
    with a majority. The steps are the handlers of src/cluster.c; messages stay in the network until delivered. */
module Election {
  import opened Counting

  type NodeId = nat

  /** A slot-serving master: its currentEpoch and lastVoteEpoch. */
  datatype Master = Master(current: nat, lastVote: nat)

  /** A replica: its currentEpoch, failover_auth_epoch, failover_auth_count and failover_auth_sent. `backers` records
      the voters counted since the count was reset or votes were last requested. */
  datatype Replica = Replica(current: nat, epoch: nat, count: nat, sent: bool, backers: set<NodeId>)

  datatype Request = Request(cand: NodeId, epoch: nat)

  datatype Vote = Vote(voter: NodeId, cand: NodeId, epoch: nat)

  /** The cluster: the slot-serving masters every node agrees on, the replicas, the requests and votes in the
      network, and a record of all votes ever granted, of who won which epoch, and of how many votes were already in
      the count when each request was made. */
  datatype Cluster = Cluster(
    masters: map<NodeId, Master>,
    replicas: map<NodeId, Replica>,
    requests: set<Request>,
    acks: set<Vote>,
    granted: set<Vote>,
    winners: set<Request>,
    stale: map<Request, nat>)

  datatype Event =
    | Raise(node: NodeId, epoch: nat)                        // a packet with a greater current epoch, or an own bump
    | Schedule(cand: NodeId)                                 // a new attempt is scheduled
    | Ask(cand: NodeId)                                      // the attempt starts: votes are requested
    | Consider(voter: NodeId, req: Request, willing: bool)   // a request reaches a master
    | Deliver(vote: Vote)                                    // a vote reaches the replica
    | Win(cand: NodeId)                                      // the replica finds a majority and takes over

  /** `(server.cluster->size / 2) + 1`. */
  function Quorum(s: Cluster): nat { |s.masters.Keys| / 2 + 1 }

  predicate Enabled(s: Cluster, e: Event) {
    match e
    case Raise(_, _) => true
    case Schedule(c) => c in s.replicas
    case Ask(c) => c in s.replicas && !s.replicas[c].sent
    case Consider(v, r, _) => v in s.masters && r in s.requests
    case Deliver(a) => a in s.acks && a.cand in s.replicas
    case Win(c) => c in s.replicas && s.replicas[c].sent && s.replicas[c].count >= Quorum(s)
  }

  /** `clusterSendFailoverAuthIfNeeded`, after the request raised the current epoch. `willing` stands for the
      conditions that play no part in safety: the replica's master has failed, no recent vote about it, and no
      claimed slot is served under a greater config epoch. */
  function Grants(m: Master, epoch: nat, willing: bool): bool {
    epoch >= m.current && m.lastVote != Max(m.current, epoch) && willing
  }

  /** The voter after a request. */
  function Considered(m: Master, epoch: nat, willing: bool): Master {
    var now := Max(m.current, epoch);
    if Grants(m, epoch, willing) then Master(now, now) else m.(current := now)
  }

  function Scheduled(r: Replica): Replica { r.(count := 0, sent := false, backers := {}) }

  /** The epoch moves on; the count stays as it is. */
  function Asked(r: Replica): Replica {
    r.(current := r.current + 1, epoch := r.current + 1, sent := true, backers := {})
  }

  /** A replica after a vote: it counts if the voter's epoch is not older than the election. */
  function Counted(r: Replica, voter: NodeId, epoch: nat): Replica {
    var r1 := r.(current := Max(r.current, epoch));
    if epoch >= r.epoch then r1.(count := r.count + 1, backers := r.backers + {voter}) else r1
  }

  /** One handler call. Every packet first raises the receiver's current epoch to the sender's. */
  function Step(s: Cluster, e: Event): Cluster
    requires Enabled(s, e)
  {
    match e
    case Raise(n, epoch) =>
      if n in s.masters then s.(masters := s.masters[n := s.masters[n].(current := Max(s.masters[n].current, epoch))])
      else if n in s.replicas then
        s.(replicas := s.replicas[n := s.replicas[n].(current := Max(s.replicas[n].current, epoch))])
      else s
    case Schedule(c) => s.(replicas := s.replicas[c := Scheduled(s.replicas[c])])
    case Ask(c) =>
      var r := Asked(s.replicas[c]);
      s.(replicas := s.replicas[c := r], requests := s.requests + {Request(c, r.epoch)},
         stale := s.stale[Request(c, r.epoch) := r.count])
    case Consider(v, r, willing) =>
      var votes := if Grants(s.masters[v], r.epoch, willing) then {Vote(v, r.cand, r.epoch)} else {};
      s.(masters := s.masters[v := Considered(s.masters[v], r.epoch, willing)],
         acks := s.acks + votes, granted := s.granted + votes)
    case Deliver(a) =>
      s.(acks := s.acks - {a}, replicas := s.replicas[a.cand := Counted(s.replicas[a.cand], a.voter, a.epoch)])
    case Win(c) => s.(winners := s.winners + {Request(c, s.replicas[c].epoch)})
  }

  /** The voters that granted c a vote in an epoch. */
  ghost function Voters(s: Cluster, c: NodeId, epoch: nat): set<NodeId> {
    set v | v in s.masters && Vote(v, c, epoch) in s.granted
  }

  // ---- the invariant ----

  /** A master votes once per epoch, never ahead of its current epoch. */
  ghost predicate VotesOnce(s: Cluster) {
    && (forall v | v in s.masters :: s.masters[v].lastVote <= s.masters[v].current)
    && (forall g | g in s.granted :: g.voter in s.masters && g.epoch <= s.masters[g.voter].lastVote)
    && (forall g, h | g in s.granted && h in s.granted && g.voter == h.voter && g.epoch == h.epoch :: g.cand == h.cand)
  }

  /** Votes answer requests, and a replica's requests never exceed its election epoch. */
  ghost predicate Answers(s: Cluster) {
    && s.stale.Keys == s.requests
    && (forall c | c in s.replicas :: s.replicas[c].epoch <= s.replicas[c].current)
    && (forall r | r in s.requests :: r.cand in s.replicas && r.epoch <= s.replicas[r.cand].epoch)
    && (forall g | g in s.granted :: Request(g.cand, g.epoch) in s.requests)
    && s.acks <= s.granted
  }

  /** The votes a request started with; none before the request. */
  function Stale(s: Cluster, w: Request): nat { if w in s.stale then s.stale[w] else 0 }

  /** The count is the votes it started with and those for the present election epoch, no voter counted twice. */
  ghost predicate CountsVotes(s: Cluster, c: NodeId)
    requires c in s.replicas
  {
    var r := s.replicas[c];
    && r.count == |r.backers| + (if r.sent then Stale(s, Request(c, r.epoch)) else 0)
    && r.backers <= Voters(s, c, r.epoch)
    && forall v | v in r.backers :: Vote(v, c, r.epoch) !in s.acks
  }

  /** A winner had a majority of voters and stale votes. */
  ghost predicate WonByCount(s: Cluster) {
    forall w | w in s.winners :: w in s.requests && |Voters(s, w.cand, w.epoch)| + Stale(s, w) >= Quorum(s)
  }

  /** An election that was started was requested. */
  ghost predicate Requested(s: Cluster) {
    forall c | c in s.replicas && s.replicas[c].sent :: Request(c, s.replicas[c].epoch) in s.requests
  }

  ghost predicate Inv(s: Cluster) {
    VotesOnce(s) && Answers(s) && Requested(s) && WonByCount(s) && forall c | c in s.replicas :: CountsVotes(s, c)
  }

  // ---- every step keeps it ----

  lemma StepVotesOnce(s: Cluster, e: Event)
    requires VotesOnce(s) && Enabled(s, e)
    ensures VotesOnce(Step(s, e))
  {
    var s' := Step(s, e);
    if s'.granted == s.granted {
      assert forall v | v in s.masters :: s'.masters[v].lastVote == s.masters[v].lastVote;
    } else {
      assert forall g | g in s'.granted ::
          g in s.granted || g == Vote(e.voter, e.req.cand, s'.masters[e.voter].lastVote);
    }
  }

  lemma StepAnswers(s: Cluster, e: Event)
    requires Answers(s) && Enabled(s, e)
    ensures Answers(Step(s, e))
  {
    var s' := Step(s, e);
    assert forall c | c in s.replicas :: s.replicas[c].epoch <= s'.replicas[c].epoch <= s'.replicas[c].current;
    assert forall g | g in s'.granted :: g in s.granted || (e.Consider? && Request(g.cand, g.epoch) == e.req);
  }

  lemma StepRequested(s: Cluster, e: Event)
    requires Requested(s) && Enabled(s, e)
    ensures Requested(Step(s, e)) && Step(s, e).replicas.Keys == s.replicas.Keys
  {
    assert Step(s, e).replicas.Keys == s.replicas.Keys;
  }

  lemma StepGrows(s: Cluster, e: Event)
    requires Enabled(s, e)
    ensures s.granted <= Step(s, e).granted && Step(s, e).masters.Keys == s.masters.Keys
  {
  }

  /** The votes of a candidate only grow. */
  lemma VotersGrow(s: Cluster, e: Event, c: NodeId, epoch: nat)
    requires Enabled(s, e)
    ensures Voters(s, c, epoch) <= Voters(Step(s, e), c, epoch)
        && |Voters(s, c, epoch)| <= |Voters(Step(s, e), c, epoch)|
    ensures Step(s, e).masters.Keys == s.masters.Keys
  {
    hide Step, Enabled;
    StepGrows(s, e);
    CardMono(Voters(s, c, epoch), Voters(Step(s, e), c, epoch));
  }

  /** A vote still in the network is for an older election or was not counted yet. */
  lemma DeliverCounts(s: Cluster, a: Vote)
    requires Inv(s) && Enabled(s, Deliver(a))
    ensures CountsVotes(Step(s, Deliver(a)), a.cand)
  {
    var r := s.replicas[a.cand];
    assert a in s.granted && Request(a.cand, a.epoch) in s.requests;
    assert CountsVotes(s, a.cand);
    if a.epoch >= r.epoch {
      assert a == Vote(a.voter, a.cand, r.epoch);
      assert a.voter !in r.backers;
    }
  }

  /** A new vote is for an epoch its voter never voted in, so it is not one already counted. */
  lemma ConsiderCounts(s: Cluster, e: Event, c: NodeId)
    requires Inv(s) && Enabled(s, e) && c in s.replicas && e.Consider?
    ensures CountsVotes(Step(s, e), c)
  {
    var s', r := Step(s, e), s.replicas[c];
    assert CountsVotes(s, c);
    VotersGrow(s, e, c, r.epoch);
    forall v | v in r.backers ensures Vote(v, c, r.epoch) !in s'.acks {
      assert v in Voters(s, c, r.epoch);
      assert Vote(v, c, r.epoch) in s.granted;
    }
  }

  /** A request is new, so what is recorded for it is the count. */
  lemma AskCounts(s: Cluster, c: NodeId)
    requires Inv(s) && Enabled(s, Ask(c))
    ensures CountsVotes(Step(s, Ask(c)), c) && Request(c, Asked(s.replicas[c]).epoch) !in s.requests
  {
  }

  lemma StepCounts(s: Cluster, e: Event, c: NodeId)
    requires Inv(s) && Enabled(s, e) && c in s.replicas
    ensures c in Step(s, e).replicas && CountsVotes(Step(s, e), c)
  {
    if e.Deliver? && e.vote.cand == c {
      DeliverCounts(s, e.vote);
    } else if e.Consider? {
      ConsiderCounts(s, e, c);
    } else if e == Ask(c) {
      AskCounts(s, c);
    } else {
      QuietCounts(s, e, c);
    }
  }

  /** Other events change neither the votes of a replica nor its election. */
  lemma QuietCounts(s: Cluster, e: Event, c: NodeId)
    requires Inv(s) && Enabled(s, e) && c in s.replicas
    requires !e.Consider? && e != Ask(c) && !(e.Deliver? && e.vote.cand == c)
    ensures c in Step(s, e).replicas && CountsVotes(Step(s, e), c)
  {
    assert CountsVotes(s, c);
    hide VotesOnce, Answers, WonByCount, Requested, Max;
  }

  /** What is recorded about a request never changes. */
  lemma StaleStays(s: Cluster, e: Event, w: Request)
    requires Inv(s) && Enabled(s, e) && w in s.requests
    ensures w in Step(s, e).requests && Stale(Step(s, e), w) == Stale(s, w)
  {
    if e.Ask? { AskCounts(s, e.cand); }
  }

  lemma StepWins(s: Cluster, e: Event)
    requires Inv(s) && Enabled(s, e)
    ensures WonByCount(Step(s, e))
  {
    var s' := Step(s, e);
    forall w | w in s'.winners
      ensures w in s'.requests && |Voters(s', w.cand, w.epoch)| + Stale(s', w) >= Quorum(s')
    {
      VotersGrow(s, e, w.cand, w.epoch);
      if w !in s.winners {
        assert CountsVotes(s, w.cand);
        CardMono(s.replicas[w.cand].backers, Voters(s, w.cand, w.epoch));
      }
      StaleStays(s, e, w);
    }
  }

  lemma StepKeeps(s: Cluster, e: Event)
    requires Inv(s) && Enabled(s, e)
    ensures Inv(Step(s, e))
  {
    var s' := Step(s, e);
    StepWins(s, e);
    hide Step, Enabled, VotesOnce, Answers, CountsVotes, WonByCount, Requested;
    StepVotesOnce(s, e);
    StepAnswers(s, e);
    StepRequested(s, e);
    forall c | c in s'.replicas ensures CountsVotes(s', c) { StepCounts(s, e, c); }
  }

  // ---- whole runs ----

  /** Nobody has asked or voted yet. */
  ghost predicate Start(s: Cluster) {
    && s.requests == {} && s.acks == {} && s.granted == {} && s.winners == {} && s.stale == map[]
    && (forall v | v in s.masters :: s.masters[v].lastVote <= s.masters[v].current)
    && (forall c | c in s.replicas :: s.replicas[c] == Replica(s.replicas[c].current, 0, 0, false, {}))
  }

  /** The events can happen one after the other. */
  predicate Possible(s: Cluster, es: seq<Event>)
    decreases |es|
  {
    es == [] || (Enabled(s, es[0]) && Possible(Step(s, es[0]), es[1..]))
  }

  function Final(s: Cluster, es: seq<Event>): Cluster
    requires Possible(s, es)
    decreases |es|
  {
    if es == [] then s else Final(Step(s, es[0]), es[1..])
  }

  lemma {:induction false} RunKeeps(s: Cluster, es: seq<Event>)
    requires Inv(s) && Possible(s, es)
    ensures Inv(Final(s, es)) && Final(s, es).masters.Keys == s.masters.Keys
    decreases |es|
  {
    hide Inv, Step;
    if es != [] {
      StepKeeps(s, es[0]);
      VotersGrow(s, es[0], 0, 0);
      RunKeeps(Step(s, es[0]), es[1..]);
    }
  }

  /** Two winners of one epoch need stale votes: as many, together, as two majorities exceed the masters by. That is
      one for an odd number of masters and two for an even number. */
  lemma TwoWinnersNeedStale(s: Cluster, es: seq<Event>, w1: Request, w2: Request)
    requires Start(s) && Possible(s, es) && w1 != w2 && w1.epoch == w2.epoch
    requires w1 in Final(s, es).winners && w2 in Final(s, es).winners
    ensures Stale(Final(s, es), w1) + Stale(Final(s, es), w2) + |s.masters.Keys| >= 2 * Quorum(s)
  {
    assert Inv(s);
    RunKeeps(s, es);
    TwoWinners(Final(s, es), w1, w2);
  }

  /** Nobody votes for both, so their voters are that many masters less the stale votes. */
  lemma TwoWinners(s: Cluster, w1: Request, w2: Request)
    requires Inv(s) && w1 in s.winners && w2 in s.winners && w1 != w2 && w1.epoch == w2.epoch
    ensures Stale(s, w1) + Stale(s, w2) + |s.masters.Keys| >= 2 * Quorum(s)
  {
    var a, b := Voters(s, w1.cand, w1.epoch), Voters(s, w2.cand, w1.epoch);
    forall v | v in a ensures v !in b {
      assert Vote(v, w1.cand, w1.epoch) in s.granted;
    }
    CardMono(a + b, s.masters.Keys);
    assert a !! b;
  }

  /** Votes are requested only while the count is empty: the window between scheduling an attempt, which empties
      the count, and starting it, which moves the election epoch, saw no vote of an older attempt. */
  predicate AllFresh(s: Cluster, es: seq<Event>)
    requires Possible(s, es)
    decreases |es|
  {
    es == [] || ((es[0].Ask? ==> s.replicas[es[0].cand].count == 0) && AllFresh(Step(s, es[0]), es[1..]))
  }

  lemma {:induction false} FreshRun(s: Cluster, es: seq<Event>, w: Request)
    requires Possible(s, es) && AllFresh(s, es) && Stale(s, w) == 0
    ensures Stale(Final(s, es), w) == 0
    decreases |es|
  {
    if es != [] { FreshRun(Step(s, es[0]), es[1..], w); }
  }

  /** Then at most one replica wins any epoch. */
  lemma ElectionSafety(s: Cluster, es: seq<Event>, w1: Request, w2: Request)
    requires Start(s) && Possible(s, es) && AllFresh(s, es)
    requires w1 in Final(s, es).winners && w2 in Final(s, es).winners && w1.epoch == w2.epoch
    ensures w1 == w2
  {
    FreshRun(s, es, w1);
    FreshRun(s, es, w2);
    if w1 != w2 { TwoWinnersNeedStale(s, es, w1, w2); }
  }

  /** Each vote a master grants is for the epoch of the request and for a greater one than all its votes before. */
  lemma VotesIncrease(s: Cluster, v: NodeId, r: Request, willing: bool, g: Vote)
    requires Inv(s) && Enabled(s, Consider(v, r, willing)) && g in s.granted && g.voter == v
    requires Grants(s.masters[v], r.epoch, willing)
    ensures g.epoch < Step(s, Consider(v, r, willing)).masters[v].lastVote == r.epoch
  {
  }

  // ---- stale votes elect two ----

  lemma {:induction false} Joined(s: Cluster, a: seq<Event>, b: seq<Event>)
    requires Possible(s, a) && Possible(Final(s, a), b)
    ensures Possible(s, a + b) && Final(s, a + b) == Final(Final(s, a), b)
    decreases |a|
  {
    hide Step, Enabled;
    if a == [] {
      assert a + b == b;
    } else {
      Joined(Step(s, a[0]), a[1..], b);
      assert (a + b)[1..] == a[1..] + b;
    }
  }

  /** A run and one more event. */
  lemma Then(s: Cluster, es: seq<Event>, e: Event)
    requires Possible(s, es) && Enabled(Final(s, es), e)
    ensures Possible(s, es + [e]) && Final(s, es + [e]) == Step(Final(s, es), e)
  {
    hide Step, Enabled;
    Joined(s, es, [e]);
  }

  /** Asking with a majority of old votes in the count wins an epoch nobody voted in. */
  lemma AskTooLate(s: Cluster, c: NodeId)
    requires Inv(s) && Enabled(s, Ask(c)) && s.replicas[c].count >= Quorum(s)
    ensures Possible(s, [Ask(c), Win(c)])
    ensures var w := Request(c, s.replicas[c].current + 1); var t := Final(s, [Ask(c), Win(c)]);
      w in t.winners && Voters(t, c, w.epoch) == {}
  {
    NobodyAsked(s, c);
    var s1 := Step(s, Ask(c));
    assert Enabled(s1, Win(c));
    hide Inv, Step, Enabled;
    assert Possible(s, []);
    Then(s, [], Ask(c));
    Then(s, [] + [Ask(c)], Win(c));
    assert [] + [Ask(c)] + [Win(c)] == [Ask(c), Win(c)];
  }

  lemma NobodyAsked(s: Cluster, c: NodeId)
    requires Inv(s) && Enabled(s, Ask(c))
    ensures var w := Request(c, s.replicas[c].current + 1); var s1 := Step(s, Ask(c));
      && s1.replicas[c].epoch == w.epoch && s1.replicas[c].count == s.replicas[c].count
      && (Enabled(s1, Win(c)) ==> w in Step(s1, Win(c)).winners && Voters(Step(s1, Win(c)), c, w.epoch) == {})
  {
    AskCounts(s, c);
    assert Voters(s, c, s.replicas[c].current + 1) == {};
  }

  /** The votes of masters lo up to hi for a request. */
  function Ballots(lo: nat, hi: nat, q: Request): set<Vote>
    requires lo <= hi
  {
    set v: nat | v in Range(lo, hi) :: Vote(v, q.cand, q.epoch)
  }

  lemma BallotsMore(lo: nat, hi: nat, q: Request)
    requires lo <= hi
    ensures Ballots(lo, hi + 1, q) == Ballots(lo, hi, q) + {Vote(hi, q.cand, q.epoch)}
    ensures Vote(hi, q.cand, q.epoch) !in Ballots(lo, hi, q)
  {
    assert Range(lo, hi + 1) == Range(lo, hi) + {hi};
  }

  lemma BallotsIn(lo: nat, hi: nat, q: Request)
    requires lo <= hi
    ensures forall v: nat | lo <= v < hi :: Vote(v, q.cand, q.epoch) in Ballots(lo, hi, q)
  {
  }

  /** Those masters have granted their votes. */
  function GrantedBy(s: Cluster, lo: nat, hi: nat, q: Request): Cluster
    requires lo <= hi
  {
    s.(masters := map v | v in s.masters :: if lo <= v < hi then Master(q.epoch, q.epoch) else s.masters[v],
       acks := s.acks + Ballots(lo, hi, q), granted := s.granted + Ballots(lo, hi, q))
  }

  /** Masters lo up to hi may still vote in the epoch of the request. */
  predicate CanVote(s: Cluster, lo: nat, hi: nat, q: Request) {
    && q in s.requests
    && forall v: nat | lo <= v < hi ::
        v in s.masters && s.masters[v].current <= q.epoch && s.masters[v].lastVote < q.epoch
  }

  lemma {:induction false} GrantRun(s: Cluster, lo: nat, hi: nat, q: Request) returns (es: seq<Event>)
    requires lo <= hi && CanVote(s, lo, hi, q)
    ensures Possible(s, es) && Final(s, es) == GrantedBy(s, lo, hi, q)
    decreases hi - lo
  {
    hide GrantedBy, Step, Enabled, CanVote;
    if lo == hi {
      es := [];
      GrantNone(s, lo, q);
    } else {
      GrantMore(s, lo, hi - 1, q);
      hide Possible, Final;
      es := GrantRun(s, lo, hi - 1, q);
      Then(s, es, Consider(hi - 1, q, true));
      es := es + [Consider(hi - 1, q, true)];
    }
  }

  lemma GrantNone(s: Cluster, lo: nat, q: Request)
    ensures GrantedBy(s, lo, lo, q) == s
  {
    assert Range(lo, lo) == {};
    assert GrantedBy(s, lo, lo, q).masters == s.masters;
  }

  lemma GrantMore(s: Cluster, lo: nat, hi: nat, q: Request)
    requires lo <= hi && CanVote(s, lo, hi + 1, q)
    ensures CanVote(s, lo, hi, q)
    ensures var t := GrantedBy(s, lo, hi, q); var e := Consider(hi, q, true);
      Enabled(t, e) && Step(t, e) == GrantedBy(s, lo, hi + 1, q)
  {
    hide Ballots;
    BallotsMore(lo, hi, q);
    var t, u := GrantedBy(s, lo, hi, q), GrantedBy(s, lo, hi + 1, q);
    assert t.masters[hi] == s.masters[hi];
    assert t.masters[hi := Master(q.epoch, q.epoch)] == u.masters;
    assert s.acks + Ballots(lo, hi, q) + {Vote(hi, q.cand, q.epoch)} == u.acks;
    assert s.granted + Ballots(lo, hi, q) + {Vote(hi, q.cand, q.epoch)} == u.granted;
  }

  /** Those votes are in the network, and the replica counts votes of their epoch. */
  predicate CanCount(s: Cluster, lo: nat, hi: nat, q: Request) {
    && q.cand in s.replicas && s.replicas[q.cand].epoch <= q.epoch <= s.replicas[q.cand].current
    && forall v: nat | lo <= v < hi :: Vote(v, q.cand, q.epoch) in s.acks
  }

  /** Those votes have been counted. */
  function DeliveredTo(s: Cluster, lo: nat, hi: nat, q: Request): Cluster
    requires lo <= hi && CanCount(s, lo, hi, q)
  {
    var r := s.replicas[q.cand];
    s.(acks := s.acks - Ballots(lo, hi, q),
       replicas := s.replicas[q.cand := r.(count := r.count + (hi - lo), backers := r.backers + Range(lo, hi))])
  }

  lemma {:induction false} DeliverRun(s: Cluster, lo: nat, hi: nat, q: Request) returns (es: seq<Event>)
    requires lo <= hi && CanCount(s, lo, hi, q)
    ensures Possible(s, es) && Final(s, es) == DeliveredTo(s, lo, hi, q)
    decreases hi - lo
  {
    hide DeliveredTo, Step, Enabled, CanCount;
    if lo == hi {
      es := [];
      DeliverNone(s, lo, q);
    } else {
      DeliverMore(s, lo, hi - 1, q);
      hide Possible, Final;
      es := DeliverRun(s, lo, hi - 1, q);
      Then(s, es, Deliver(Vote(hi - 1, q.cand, q.epoch)));
      es := es + [Deliver(Vote(hi - 1, q.cand, q.epoch))];
    }
  }

  lemma DeliverNone(s: Cluster, lo: nat, q: Request)
    requires CanCount(s, lo, lo, q)
    ensures DeliveredTo(s, lo, lo, q) == s
  {
    assert Range(lo, lo) == {};
    assert s.replicas[q.cand := s.replicas[q.cand]] == s.replicas;
  }

  lemma DeliverMore(s: Cluster, lo: nat, hi: nat, q: Request)
    requires lo <= hi && CanCount(s, lo, hi + 1, q)
    ensures CanCount(s, lo, hi, q)
    ensures var t := DeliveredTo(s, lo, hi, q); var e := Deliver(Vote(hi, q.cand, q.epoch));
      Enabled(t, e) && Step(t, e) == DeliveredTo(s, lo, hi + 1, q)
  {
    var a, r := Vote(hi, q.cand, q.epoch), s.replicas[q.cand];
    BallotsMore(lo, hi, q);
    AddOne(r.backers, lo, hi);
    TakeOne(s.acks, Ballots(lo, hi, q), a);
    hide Ballots, Range;
    var t := DeliveredTo(s, lo, hi, q);
    assert a in t.acks;
    var u := Counted(t.replicas[q.cand], hi, q.epoch);
    assert u == r.(count := r.count + (hi + 1 - lo), backers := r.backers + Range(lo, hi + 1));
    assert s.replicas[q.cand := t.replicas[q.cand]][q.cand := u] == s.replicas[q.cand := u];
  }

  lemma AddOne(a: set<NodeId>, lo: nat, hi: nat)
    requires lo <= hi
    ensures a + Range(lo, hi) + {hi} == a + Range(lo, hi + 1)
  {
    assert Range(lo, hi + 1) == Range(lo, hi) + {hi};
  }

  lemma TakeOne(acks: set<Vote>, b: set<Vote>, a: Vote)
    requires a in acks && a !in b
    ensures acks - (b + {a}) == acks - b - {a} && a in acks - b
  {
  }

  /** What a run of candidate c did to the others: masters lo up to hi voted in its epoch, all else is as before. */
  ghost predicate OnlyVoted(s: Cluster, t: Cluster, c: NodeId, lo: nat, hi: nat, epoch: nat) {
    && t.masters.Keys == s.masters.Keys && t.replicas.Keys == s.replicas.Keys && t.winners == s.winners
    && (forall v | v in s.masters :: t.masters[v] == if lo <= v < hi then Master(epoch, epoch) else s.masters[v])
    && (forall r | r in s.replicas && r != c :: t.replicas[r] == s.replicas[r])
  }

  /** Masters lo up to hi may vote in the next epoch of replica c. */
  predicate CanAsk(s: Cluster, c: NodeId, lo: nat, hi: nat) {
    && Enabled(s, Ask(c)) && lo <= hi
    && forall v: nat | lo <= v < hi ::
        v in s.masters && s.masters[v].lastVote <= s.masters[v].current <= s.replicas[c].current
  }

  /** Replica c has requested votes and masters lo up to hi have granted them. */
  function AskedOf(s: Cluster, c: NodeId, lo: nat, hi: nat): Cluster
    requires CanAsk(s, c, lo, hi)
  {
    GrantedBy(Step(s, Ask(c)), lo, hi, Request(c, s.replicas[c].current + 1))
  }

  lemma AskRun(s: Cluster, c: NodeId, lo: nat, hi: nat) returns (es: seq<Event>)
    requires CanAsk(s, c, lo, hi)
    ensures Possible(s, es) && Final(s, es) == AskedOf(s, c, lo, hi)
  {
    var q := Request(c, s.replicas[c].current + 1);
    var s1 := Step(s, Ask(c));
    var rest := GrantRun(s1, lo, hi, q);
    hide GrantedBy, Step;
    es := [Ask(c)] + rest;
    assert es[1..] == rest;
  }

  lemma AskedOfFacts(s: Cluster, c: NodeId, lo: nat, hi: nat)
    requires CanAsk(s, c, lo, hi)
    ensures var e := s.replicas[c].current + 1; var t := AskedOf(s, c, lo, hi); var q := Request(c, e);
      && OnlyVoted(s, t, c, lo, hi, e) && t.stale == s.stale[q := s.replicas[c].count]
      && t.replicas[c] == Replica(e, e, s.replicas[c].count, true, {}) && CanCount(t, lo, hi, q)
  {
    BallotsIn(lo, hi, Request(c, s.replicas[c].current + 1));
    hide Ballots, Range;
  }

  /** Counting the votes leaves everything else alone. */
  lemma DeliveredFacts(s: Cluster, s1: Cluster, c: NodeId, lo: nat, hi: nat, e: nat)
    requires lo <= hi && CanCount(s1, lo, hi, Request(c, e)) && OnlyVoted(s, s1, c, lo, hi, e)
    requires s1.replicas[c].backers == {}
    ensures var t := DeliveredTo(s1, lo, hi, Request(c, e)); var r := s1.replicas[c];
      && OnlyVoted(s, t, c, lo, hi, e) && t.stale == s1.stale
      && c in t.replicas && t.replicas[c] == r.(count := r.count + (hi - lo), backers := Range(lo, hi))
  {
    assert {} + Range(lo, hi) == Range(lo, hi);
  }

  /** Replica c requests votes, masters lo up to hi grant them, and they arrive before anything else. */
  lemma Campaign(s: Cluster, c: NodeId, lo: nat, hi: nat) returns (es: seq<Event>)
    requires CanAsk(s, c, lo, hi)
    ensures Possible(s, es)
    ensures var t := Final(s, es); var e := s.replicas[c].current + 1;
      && OnlyVoted(s, t, c, lo, hi, e)
      && t.replicas[c] == Replica(e, e, s.replicas[c].count + (hi - lo), true, Range(lo, hi))
      && t.stale == s.stale[Request(c, e) := s.replicas[c].count]
  {
    var q := Request(c, s.replicas[c].current + 1);
    var s1 := AskedOf(s, c, lo, hi);
    AskedOfFacts(s, c, lo, hi);
    DeliveredFacts(s, s1, c, lo, hi, q.epoch);
    hide Step, Possible, Final, AskedOf, CanCount, DeliveredTo, Range, OnlyVoted;
    es := AskRun(s, c, lo, hi);
    var rest := DeliverRun(s1, lo, hi, q);
    Joined(s, es, rest);
    es := es + rest;
  }

  /** Masters lo up to hi voted in the next epoch of c, which has counted them and not asked since. */
  ghost predicate Lagging(s: Cluster, t: Cluster, c: NodeId, lo: nat, hi: nat) {
    c in s.replicas && lo <= hi && var e := s.replicas[c].current + 1;
    && OnlyVoted(s, t, c, lo, hi, e)
    && t.replicas[c] == Replica(e, e, hi - lo, false, Range(lo, hi))
    && t.stale == s.stale[Request(c, e) := s.replicas[c].count]
  }

  /** The attempt is scheduled again before the votes arrive. */
  lemma LateVotes(s: Cluster, c: NodeId, lo: nat, hi: nat) returns (es: seq<Event>)
    requires CanAsk(s, c, lo, hi)
    ensures Possible(s, es) && Lagging(s, Final(s, es), c, lo, hi)
  {
    LaggingIs(s, c, lo, hi);
    var q := Request(c, s.replicas[c].current + 1);
    var s1 := AskedOf(s, c, lo, hi);
    var s2 := Step(s1, Schedule(c));
    hide Step, Enabled, Possible, Final, AskedOf, CanCount, DeliveredTo, Lagging, CanAsk;
    es := AskRun(s, c, lo, hi);
    Then(s, es, Schedule(c));
    es := es + [Schedule(c)];
    var rest := DeliverRun(s2, lo, hi, q);
    Joined(s, es, rest);
    es := es + rest;
  }

  lemma LaggingIs(s: Cluster, c: NodeId, lo: nat, hi: nat)
    requires CanAsk(s, c, lo, hi)
    ensures var q := Request(c, s.replicas[c].current + 1); var s1 := AskedOf(s, c, lo, hi);
      && Enabled(s1, Schedule(c)) && var s2 := Step(s1, Schedule(c));
      CanCount(s2, lo, hi, q) && Lagging(s, DeliveredTo(s2, lo, hi, q), c, lo, hi)
  {
    var q := Request(c, s.replicas[c].current + 1);
    var s1 := AskedOf(s, c, lo, hi);
    AskedOfFacts(s, c, lo, hi);
    RescheduledFacts(s, s1, c, lo, hi, q.epoch);
    var s2 := Step(s1, Schedule(c));
    DeliveredFacts(s, s2, c, lo, hi, q.epoch);
    hide Step, Enabled, AskedOf, CanCount, DeliveredTo, Range, OnlyVoted;
  }

  lemma RescheduledFacts(s: Cluster, s1: Cluster, c: NodeId, lo: nat, hi: nat, e: nat)
    requires lo <= hi && CanCount(s1, lo, hi, Request(c, e)) && OnlyVoted(s, s1, c, lo, hi, e)
    ensures Enabled(s1, Schedule(c))
    ensures var s2 := Step(s1, Schedule(c));
      && CanCount(s2, lo, hi, Request(c, e)) && OnlyVoted(s, s2, c, lo, hi, e) && s2.stale == s1.stale
      && s2.replicas[c] == Scheduled(s1.replicas[c])
  {
  }

  /** Masters 0 up to n and two idle replicas. */
  function Idle(n: nat): Cluster {
    var idle := Replica(0, 0, 0, false, {});
    Cluster(map v | v in Range(0, n) :: Master(0, 0), map[n := idle, n + 1 := idle], {}, {}, {}, {}, map[])
  }

  lemma IdleStart(n: nat)
    ensures Start(Idle(n)) && Idle(n).masters.Keys == Range(0, n) && Quorum(Idle(n)) == n / 2 + 1
    ensures (forall v: nat | v < n :: Idle(n).masters[v] == Master(0, 0)) && Idle(n).replicas.Keys == {n, n + 1}
    ensures Idle(n).replicas[n + 1] == Replica(0, 0, 0, false, {})
  {
    assert Idle(n).masters.Keys == Range(0, n);
  }

  /** As many votes as two majorities exceed the masters by. */
  function Excess(n: nat): nat { 2 * (n / 2 + 1) - n }

  /** Replica n holds that many votes of epoch 1 and is about to ask in epoch 2. */
  ghost predicate Late(t: Cluster, n: nat) {
    && t.masters.Keys == Range(0, n) && t.replicas.Keys == {n, n + 1} && t.stale == map[Request(n, 1) := 0]
    && (forall v: nat | v < n :: t.masters[v].lastVote <= t.masters[v].current <= 1)
    && t.replicas[n] == Replica(1, 1, Excess(n), false, Range(0, Excess(n)))
    && t.replicas[n + 1] == Replica(0, 0, 0, false, {})
  }

  lemma StaleVotes(n: nat) returns (es: seq<Event>)
    requires n > 0
    ensures Possible(Idle(n), es) && Late(Final(Idle(n), es), n)
  {
    IdleCanAsk(n);
    hide Possible, Final, Lagging, Late, CanAsk, Idle, Excess;
    es := LateVotes(Idle(n), n, 0, Excess(n));
    LaggingFacts(n, Final(Idle(n), es));
    LateAfter(n, Final(Idle(n), es));
  }

  lemma IdleCanAsk(n: nat)
    requires n > 0
    ensures CanAsk(Idle(n), n, 0, Excess(n)) && Idle(n).replicas[n] == Replica(0, 0, 0, false, {})
        && Idle(n).stale == map[]
  {
    IdleStart(n);
    hide Range;
  }

  lemma LaggingFacts(n: nat, t: Cluster)
    requires n > 0 && Lagging(Idle(n), t, n, 0, Excess(n))
    ensures OnlyVoted(Idle(n), t, n, 0, Excess(n), 1) && t.stale == map[Request(n, 1) := 0]
    ensures n in t.replicas && t.replicas[n] == Replica(1, 1, Excess(n), false, Range(0, Excess(n)))
  {
    IdleCanAsk(n);
    assert n in t.replicas;
    hide Idle, OnlyVoted, CanAsk, Excess;
  }

  lemma LateAfter(n: nat, t: Cluster)
    requires n > 0 && OnlyVoted(Idle(n), t, n, 0, Excess(n), 1) && t.stale == map[Request(n, 1) := 0]
    requires t.replicas[n] == Replica(1, 1, Excess(n), false, Range(0, Excess(n)))
    ensures Late(t, n)
  {
    IdleStart(n);
    hide Idle, Start, Range;
  }

  /** After its campaign and before its win. */
  ghost predicate Elected(t: Cluster, n: nat) {
    && t.masters.Keys == Range(0, n) && t.replicas.Keys == {n, n + 1}
    && t.replicas[n].epoch == 2 && t.replicas[n].sent && t.replicas[n].count == n / 2 + 1
    && t.replicas[n + 1] == Replica(0, 0, 0, false, {})
    && t.stale == map[Request(n, 1) := 0, Request(n, 2) := Excess(n)]
    && forall v: nat | n / 2 + 1 - Excess(n) <= v < n :: t.masters[v].lastVote <= t.masters[v].current <= 1
  }

  /** The state after the first campaign, from what its two parts did. */
  lemma ElectedAfter(n: nat, s1: Cluster, t: Cluster)
    requires n > 0 && Late(s1, n)
    requires OnlyVoted(s1, t, n, 0, n / 2 + 1 - Excess(n), 2)
    requires t.replicas[n].epoch == 2 && t.replicas[n].sent && t.replicas[n].count == n / 2 + 1
    requires t.stale == map[Request(n, 1) := 0][Request(n, 2) := Excess(n)]
    ensures Elected(t, n)
  {
  }

  lemma FirstCampaign(n: nat) returns (es: seq<Event>)
    requires n > 0
    ensures Possible(Idle(n), es) && Elected(Final(Idle(n), es), n)
  {
    es := StaleVotes(n);
    var s := Idle(n);
    var s1 := Final(s, es);
    assert CanAsk(s1, n, 0, n / 2 + 1 - Excess(n));
    hide Possible, Final, Step, Elected, Range, Idle, CanAsk;
    var more := Campaign(s1, n, 0, n / 2 + 1 - Excess(n));
    ElectedAfter(n, s1, Final(s1, more));
    hide OnlyVoted;
    Joined(s, es, more);
    es := es + more;
  }

  /** Replica n takes over, and replica n + 1 hears of epoch 1. */
  lemma WinAndRaise(s: Cluster, n: nat) returns (s': Cluster, es: seq<Event>)
    requires n > 0 && Elected(s, n)
    ensures Possible(s, es) && Final(s, es) == s'
    ensures s'.masters == s.masters && s'.stale == s.stale && s'.winners == s.winners + {Request(n, 2)}
    ensures n + 1 in s'.replicas && s'.replicas[n + 1] == Replica(1, 0, 0, false, {})
  {
    IdleStart(n);
    assert Possible(s, []);
    var s1 := Step(s, Win(n));
    s' := Step(s1, Raise(n + 1, 1));
    assert Enabled(s, Win(n)) && Enabled(s1, Raise(n + 1, 1));
    hide Step, Enabled;
    Then(s, [], Win(n));
    Then(s, [] + [Win(n)], Raise(n + 1, 1));
    es := [] + [Win(n)] + [Raise(n + 1, 1)];
  }

  /** Replica n + 1 wins as well, with the votes of the other masters. */
  lemma SecondCampaign(s: Cluster, n: nat) returns (es: seq<Event>)
    requires n > 0 && Elected(s, n)
    ensures Possible(s, es)
    ensures var t := Final(s, es);
      && Request(n, 2) in t.winners && Request(n + 1, 2) in t.winners
      && Stale(t, Request(n, 2)) == Excess(n) && Stale(t, Request(n + 1, 2)) == 0
  {
    var s2;
    s2, es := WinAndRaise(s, n);
    hide Possible, Final;
    var more := Campaign(s2, n + 1, n / 2 + 1 - Excess(n), n);
    Joined(s, es, more);
    es := es + more;
    SecondWin(s2, Final(s2, more), n);
    hide Step, Enabled, Elected, OnlyVoted, Stale;
    Then(s, es, Win(n + 1));
    es := es + [Win(n + 1)];
  }

  lemma SecondWin(s: Cluster, t: Cluster, n: nat)
    requires n > 0 && s.masters.Keys == Range(0, n) && n + 1 in s.replicas
    requires s.stale == map[Request(n, 1) := 0, Request(n, 2) := Excess(n)] && Request(n, 2) in s.winners
    requires OnlyVoted(s, t, n + 1, n / 2 + 1 - Excess(n), n, 2)
    requires t.replicas[n + 1].epoch == 2 && t.replicas[n + 1].sent && t.replicas[n + 1].count == n / 2 + 1
    requires t.stale == s.stale[Request(n + 1, 2) := 0]
    ensures Enabled(t, Win(n + 1))
    ensures var u := Step(t, Win(n + 1));
      && Request(n, 2) in u.winners && Request(n + 1, 2) in u.winners
      && Stale(u, Request(n, 2)) == Excess(n) && Stale(u, Request(n + 1, 2)) == 0
  {
  }

  /** The bound is tight: for every number of masters there is a run with just that many stale votes in which two
      replicas win one epoch. */
  lemma LateVotesElectTwo(n: nat) returns (s: Cluster, es: seq<Event>, w1: Request, w2: Request)
    requires n > 0
    ensures Start(s) && |s.masters.Keys| == n && Possible(s, es) && w1 != w2 && w1.epoch == w2.epoch
    ensures w1 in Final(s, es).winners && w2 in Final(s, es).winners
    ensures Stale(Final(s, es), w1) + Stale(Final(s, es), w2) + n == 2 * Quorum(s)
  {
    IdleStart(n);
    s, w1, w2 := Idle(n), Request(n, 2), Request(n + 1, 2);
    hide Possible, Final, Elected, Start, Idle;
    es := FirstCampaign(n);
    var more := SecondCampaign(Final(s, es), n);
    Joined(s, es, more);
    es := es + more;
  }
}
