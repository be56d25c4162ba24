/** The election handlers of src/cluster.c as methods on a node's fields, proved to take exactly the steps of
    `Election`. */
module ElectionHandlers {
  import opened Counting
  import opened Options
  import opened ClusterView
  import opened ClusterSlots
  import opened Election

  /** What a vote request says, and what we know about the node that sent it. */
  datatype AuthRequest = AuthRequest(
    currentEpoch: nat, configEpoch: nat, claimed: Bitmap, force: bool,
    replicaOf: Option<NodeId>, masterFailed: bool)

  /** No claimed slot is served, as far as we know, under a config epoch greater than the request's. */
  ghost predicate NoNewerOwner(slots: Table, epochs: map<NodeId, nat>, req: AuthRequest, n: nat)
    requires n <= 16384
  {
    forall j: Slot :: j < n && TestBit(req.claimed, j) && slots[j].Some? && slots[j].value in epochs
                      ==> epochs[slots[j].value] <= req.configEpoch
  }

  /** A master with the right to vote. */
  class Voter {
    var isReplica: bool
    var numslots: nat
    var currentEpoch: nat
    var lastVoteEpoch: nat
    var votedTime: map<NodeId, int>
    var slots: Table
    var epochs: map<NodeId, nat>

    ghost function View(): Master
      reads this
    {
      Master(currentEpoch, lastVoteEpoch)
    }

    /** The conditions of a vote that do not concern epochs of the election. */
    ghost predicate Willing(req: AuthRequest, now: int, timeout: nat)
      reads this
    {
      && !isReplica && numslots > 0
      && req.replicaOf.Some? && (req.masterFailed || req.force)
      && (req.replicaOf.value in votedTime ==> now - votedTime[req.replicaOf.value] >= timeout * 2)
      && NoNewerOwner(slots, epochs, req, 16384)
    }

    ghost predicate Known()
      reads this
    {
      forall j: Slot :: slots[j].Some? ==> slots[j].value in epochs
    }

    /** `clusterSendFailoverAuthIfNeeded`. */
    method SendFailoverAuthIfNeeded(req: AuthRequest, now: int, timeout: nat) returns (granted: bool)
      requires Known()
      modifies this`lastVoteEpoch, this`votedTime
      ensures granted <==>
        && req.currentEpoch >= currentEpoch && old(lastVoteEpoch) != currentEpoch && old(Willing(req, now, timeout))
      ensures lastVoteEpoch == if granted then currentEpoch else old(lastVoteEpoch)
      ensures votedTime == if granted then old(votedTime)[req.replicaOf.value := now] else old(votedTime)
    {
      if isReplica || numslots == 0 { return false; }
      if req.currentEpoch < currentEpoch { return false; }
      if lastVoteEpoch == currentEpoch { return false; }
      if req.replicaOf.None? || (!req.masterFailed && !req.force) { return false; }
      var master := req.replicaOf.value;
      if master in votedTime && now - votedTime[master] < timeout * 2 { return false; }
      for j := 0 to 16384
        invariant NoNewerOwner(slots, epochs, req, j) && Known()
      {
        if TestBit(req.claimed, j) && slots[j].Some? && epochs[slots[j].value] > req.configEpoch {
          return false;
        }
      }
      lastVoteEpoch, votedTime := currentEpoch, votedTime[master := now];
      return true;
    }

    /** A vote request arrives: its header raises our current epoch first. */
    method ReceiveRequest(req: AuthRequest, now: int, timeout: nat) returns (granted: bool)
      requires Known()
      modifies this`currentEpoch, this`lastVoteEpoch, this`votedTime
      ensures granted == Grants(old(View()), req.currentEpoch, old(Willing(req, now, timeout)))
      ensures View() == Considered(old(View()), req.currentEpoch, old(Willing(req, now, timeout)))
    {
      if req.currentEpoch > currentEpoch { currentEpoch := req.currentEpoch; }
      granted := SendFailoverAuthIfNeeded(req, now, timeout);
    }
  }

  datatype Action = Idle | Plan | Start | TakeOver

  /** What the replica knows when the handler runs: whether a failover is due at all, the state of a manual
      failover, the delay and rank drawn for a new attempt, and the size of the cluster. */
  datatype Situation = Situation(
    due: bool, mfEnd: bool, mfCanStart: bool, dataTooOld: bool, delay: nat, rank: nat, timeout: nat, size: nat)
  {
    /** A failover is due, with recent data or by hand. */
    predicate Able() { due && (!dataTooOld || (mfEnd && mfCanStart)) }

    /** How long after its start an election may be won. */
    function AuthTimeout(): nat { if timeout * 2 < 2000 then 2000 else timeout * 2 }

    /** The delay added to a scheduled attempt because other replicas turned out to have more data. */
    function Penalty(authRank: nat): nat { if !mfEnd && rank > authRank then (rank - authRank) * 1000 else 0 }
  }

  class Candidate {
    var currentEpoch: nat
    var configEpoch: nat
    var authTime: int
    var authRank: nat
    var authEpoch: nat
    var authCount: nat
    var authSent: bool
    ghost var backers: set<NodeId>

    ghost function View(): Replica
      reads this
    {
      Replica(currentEpoch, authEpoch, authCount, authSent, backers)
    }

    /** `clusterHandleSlaveFailover`: nothing, or exactly one of the three election steps. An attempt is scheduled
        when the one before is twice the timeout old, votes are requested once per attempt, when its delay is over,
        and it may be won until the timeout. However often it is called, the delay of an attempt grows by one second
        for each rank lost, so the attempt is due at its base time plus the greatest rank seen, in seconds. */
    method HandleSlaveFailover(now: int, env: Situation) returns (a: Action)
      modifies this
      ensures a == Idle ==> View() == old(View())
      ensures a == Plan ==> View() == Scheduled(old(View()))
      ensures a == Start ==> !old(authSent) && View() == Asked(old(View()))
      ensures a == TakeOver ==> View() == old(View()) && authSent && authCount >= env.size / 2 + 1
      ensures a == Plan <==> env.Able() && now - old(authTime) > env.AuthTimeout() * 2
      ensures a == Plan ==> authTime == if env.mfEnd then now else now + 500 + env.delay + env.rank * 1000
      ensures authRank ==
                if a == Plan then (if env.mfEnd then 0 else env.rank)
                else if env.Able() && !old(authSent) && !env.mfEnd then Max(old(authRank), env.rank)
                else old(authRank)
      ensures a != Plan ==> authTime - 1000 * authRank == old(authTime - 1000 * authRank)
      ensures a == Start <==>
        && env.Able() && !old(authSent) && now - old(authTime) <= env.AuthTimeout()
        && now >= old(authTime) + env.Penalty(old(authRank))
      ensures a == TakeOver <==>
        && env.Able() && old(authSent) && 0 <= now - old(authTime) <= env.AuthTimeout()
        && old(authCount) >= env.size / 2 + 1
      ensures configEpoch == if a == TakeOver then Max(old(configEpoch), authEpoch) else old(configEpoch)
    {
      var authAge := now - authTime;
      var authTimeout := if env.timeout * 2 < 2000 then 2000 else env.timeout * 2;
      if !env.due { return Idle; }
      if env.dataTooOld && !(env.mfEnd && env.mfCanStart) { return Idle; }
      if authAge > authTimeout * 2 {
        authTime := now + 500 + env.delay + env.rank * 1000;
        authCount, authSent, backers, authRank := 0, false, {}, env.rank;
        if env.mfEnd { authTime, authRank := now, 0; }
        return Plan;
      }
      if !authSent && !env.mfEnd && env.rank > authRank {
        authTime, authRank := authTime + (env.rank - authRank) * 1000, env.rank;
      }
      if now < authTime { return Idle; }
      if authAge > authTimeout { return Idle; }
      if !authSent {
        currentEpoch := currentEpoch + 1;
        authEpoch, authSent, backers := currentEpoch, true, {};
        return Start;
      }
      if authCount >= env.size / 2 + 1 {
        if configEpoch < authEpoch { configEpoch := authEpoch; }
        return TakeOver;
      }
      return Idle;
    }

    /** A vote arrives: its header raises our current epoch first. `serving` says that its sender is a master with
        slots, which every voter is. */
    method ReceiveVote(voter: NodeId, epoch: nat, serving: bool)
      modifies this
      ensures View() == if serving then Counted(old(View()), voter, epoch)
                        else old(View()).(current := Max(old(currentEpoch), epoch))
      ensures configEpoch == old(configEpoch)
    {
      if epoch > currentEpoch { currentEpoch := epoch; }
      if serving && epoch >= authEpoch { authCount, backers := authCount + 1, backers + {voter}; }
    }
  }
}
