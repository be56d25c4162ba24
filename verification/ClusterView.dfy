/** What one cluster node knows about slots and keys, and how src/cluster.c decides where a query runs. */
module ClusterView {
  import opened Options

  const CLUSTER_SLOTS: nat := 16384

  type Slot = x: nat | x < 16384
  type NodeId = nat

  /** The part of a node's state that routing and CLUSTER SETSLOT read and write. `slots`, `migrating` and
      `importing` are the arrays slots[], migrating_slots_to[] and importing_slots_from[]. */
  datatype View<!K, V> = View(
    me: NodeId,
    master: Option<NodeId>,
    nodes: set<NodeId>,
    slotOf: K -> Slot,
    slots: seq<Option<NodeId>>,
    migrating: seq<Option<NodeId>>,
    importing: seq<Option<NodeId>>,
    db: map<K, V>,
    up: bool)

  ghost predicate Sized<K, V>(v: View<K, V>) {
    |v.slots| == |v.migrating| == |v.importing| == CLUSTER_SLOTS
  }

  /** A query: the keys of each command of the (possibly one-element) transaction, and the flags
      getNodeByQuery looks at: MIGRATE, ASKING, and a read-only command of a READONLY client. */
  datatype Query<K> = Query(cmds: seq<seq<K>>, isMigrate: bool, asking: bool, readonly: bool)

  datatype Verdict =
    | Serve
    | Ask(node: NodeId)
    | Moved(node: NodeId)
    | CrossSlot
    | TryAgain
    | DownUnbound
    | DownState

  /** All keys of a query, in order. */
  function Keys<K>(cmds: seq<seq<K>>): (ks: seq<K>) {
    if cmds == [] then [] else cmds[0] + Keys(cmds[1..])
  }

  /** Some key of the query is not in the local database. */
  predicate Missing<K(==), V>(v: View<K, V>, ks: seq<K>) {
    exists k | k in ks :: k !in v.db
  }

  predicate SeveralKeys<K(==)>(ks: seq<K>) {
    exists k | k in ks :: k != ks[0]
  }

  predicate OneSlot<K(==), V>(v: View<K, V>, ks: seq<K>) {
    forall k | k in ks :: v.slotOf(k) == v.slotOf(ks[0])
  }

  predicate MigratingSlot<K, V>(v: View<K, V>, s: Slot)
    requires Sized(v)
  {
    v.slots[s] == Some(v.me) && v.migrating[s].Some?
  }

  predicate ImportingSlot<K, V>(v: View<K, V>, s: Slot)
    requires Sized(v)
  {
    !MigratingSlot(v, s) && v.importing[s].Some?
  }

  /** `getNodeByQuery`, as a decision on the whole set of keys. */
  function Route<K(==), V>(v: View<K, V>, q: Query<K>): (r: Verdict)
    requires Sized(v)
  {
    var ks := Keys(q.cmds);
    if ks == [] then Serve
    else
      var s := v.slotOf(ks[0]);
      if v.slots[s].None? then DownUnbound
      else if !OneSlot(v, ks) then CrossSlot
      else if !v.up then DownState
      else if q.isMigrate && (MigratingSlot(v, s) || ImportingSlot(v, s)) then Serve
      else if MigratingSlot(v, s) && Missing(v, ks) then Ask(v.migrating[s].value)
      else if ImportingSlot(v, s) && q.asking then (if SeveralKeys(ks) && Missing(v, ks) then TryAgain else Serve)
      else if q.readonly && v.master.Some? && v.master == v.slots[s] then Serve
      else if v.slots[s] == Some(v.me) then Serve
      else Moved(v.slots[s].value)
  }

  // ---- CLUSTER SETSLOT ----

  ghost predicate Holds<K(!new), V>(v: View<K, V>, s: Slot) {
    exists k | k in v.db :: v.slotOf(k) == s
  }

  /** SETSLOT s MIGRATING n. A false flag is an error reply. */
  function SetMigrating<K, V>(v: View<K, V>, s: Slot, n: NodeId): (View<K, V>, bool)
    requires Sized(v)
  {
    if v.master.Some? || v.slots[s] != Some(v.me) || n !in v.nodes then (v, false)
    else (v.(migrating := v.migrating[s := Some(n)]), true)
  }

  /** SETSLOT s IMPORTING n. */
  function SetImporting<K, V>(v: View<K, V>, s: Slot, n: NodeId): (View<K, V>, bool)
    requires Sized(v)
  {
    if v.master.Some? || v.slots[s] == Some(v.me) || n !in v.nodes then (v, false)
    else (v.(importing := v.importing[s := Some(n)]), true)
  }

  /** SETSLOT s STABLE. */
  function SetStable<K, V>(v: View<K, V>, s: Slot): (View<K, V>, bool)
    requires Sized(v)
  {
    if v.master.Some? then (v, false)
    else (v.(migrating := v.migrating[s := None], importing := v.importing[s := None]), true)
  }

  /** SETSLOT s STABLE closes both directions: a master then answers queries on the slot by its owner alone, whatever
      was open, whichever keys are there and whether or not the client sent ASKING. Other slots are answered as before.
      A replica refuses. */
  lemma StableRoutes<K, V>(v: View<K, V>, s: Slot, q: Query<K>)
    requires Sized(v) && v.up && Keys(q.cmds) != [] && OneSlot(v, Keys(q.cmds))
    requires v.slots[v.slotOf(Keys(q.cmds)[0])].Some?
    ensures v.master.Some? ==> SetStable(v, s) == (v, false)
    ensures v.master.None? ==>
              var (v', ok) := SetStable(v, s);
              && ok && Sized(v')
              && (v.slotOf(Keys(q.cmds)[0]) != s ==> Route(v', q) == Route(v, q))
              && (v.slotOf(Keys(q.cmds)[0]) == s ==>
                    Route(v', q) == if v.slots[s] == Some(v.me) then Serve else Moved(v.slots[s].value))
  {
  }

  /** SETSLOT s NODE n. */
  ghost function SetNode<K(!new), V>(v: View<K, V>, s: Slot, n: NodeId): (View<K, V>, bool)
    requires Sized(v)
  {
    if v.master.Some? || n !in v.nodes then (v, false)
    else if v.slots[s] == Some(v.me) && n != v.me && Holds(v, s) then (v, false)
    else
      (v.(slots := v.slots[s := Some(n)],
          migrating := if Holds(v, s) then v.migrating else v.migrating[s := None],
          importing := if n == v.me then v.importing[s := None] else v.importing), true)
  }

  /** SETSLOT s NODE n. A slot with keys is not given away. Once it is bound to another node, clients are sent there;
      once it is bound to us, and unless it has keys we are migrating, all of them are served, with or without
      ASKING. */
  lemma NodeRoutes<K(!new), V>(v: View<K, V>, s: Slot, n: NodeId, q: Query<K>)
    requires Sized(v) && v.up && v.master.None? && n in v.nodes && !q.isMigrate
    requires Keys(q.cmds) != [] && OneSlot(v, Keys(q.cmds)) && v.slotOf(Keys(q.cmds)[0]) == s
    ensures var (v', ok) := SetNode(v, s, n);
      && (!ok <==> v.slots[s] == Some(v.me) && n != v.me && Holds(v, s))
      && (!ok ==> v' == v)
      && (ok && n != v.me && !q.asking ==> Route(v', q) == Moved(n))
      && (ok && n == v.me && (v.migrating[s].None? || !Holds(v, s)) ==> Route(v', q) == Serve)
  {
  }

  /** A replica serves the slots of its master to clients that sent READONLY, reading, and sends the others there. */
  lemma ReplicaRoutes<K, V>(v: View<K, V>, s: Slot, m: NodeId, q: Query<K>)
    requires Sized(v) && v.up && v.master == Some(m) && m != v.me && v.slots[s] == Some(m) && v.importing[s].None?
    requires Keys(q.cmds) != [] && OneSlot(v, Keys(q.cmds)) && v.slotOf(Keys(q.cmds)[0]) == s
    ensures Route(v, q) == if q.readonly then Serve else Moved(m)
  {
  }
}
