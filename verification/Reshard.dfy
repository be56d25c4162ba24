/** Live resharding of one slot from node A to node B, for every interleaving of client commands,
    CLUSTER SETSLOT steps and MIGRATE steps: the two databases always stand for one key-value map.

    MIGRATE is not atomic here. A sends a RESTORE per key, B executes them one by one, and A deletes a key
    only when it reads B's reply; meanwhile A serves nobody and B serves everybody. */
module Reshard {
  import opened Options
  import opened ClusterView

  /** A command or transaction: its keys, and what it does to the values of those keys. */
  datatype Cmd<!K, !V> = Cmd(cmds: seq<seq<K>>, effect: map<K, V> -> map<K, V>)

  function Restrict<K, V>(m: map<K, V>, ks: seq<K>): map<K, V> {
    map k | k in m && k in ks :: m[k]
  }

  /** Run a command on a map. */
  function Exec<K, V>(m: map<K, V>, c: Cmd<K, V>): map<K, V> {
    var ks := Keys(c.cmds);
    (map k | k in m && k !in ks :: m[k]) + Restrict(c.effect(Restrict(m, ks)), ks)
  }

  /** Both nodes, the key lists A has answered with ASK, and the MIGRATE in progress on A, if any: the
      RESTOREs still in the socket and the replies on their way back. */
  datatype Sys<!K, !V> = Sys(
    slot: Slot,
    a: View<K, V>,
    b: View<K, V>,
    asked: set<seq<seq<K>>>,
    busy: bool,
    restores: seq<(K, V)>,
    acks: seq<(K, bool)>)

  datatype Event<!K, !V> =
    | ClientAtA(cmd: Cmd<K, V>, asking: bool, readonly: bool)
    | ClientAtB(cmd: Cmd<K, V>, asking: bool, readonly: bool)
    | MigratingAtA
    | ImportingAtB
    | NodeAtA
    | NodeAtB
    | LearnAtA
    | MigrateStart(keys: seq<K>)
    | RestoreAtB
    | ReplyAtA
    | MigrateEnd

  /** Keys that B has restored and A has not yet deleted. */
  function InFlight<K(==), V>(s: Sys<K, V>): set<K> {
    set p | p in s.acks && p.1 :: p.0
  }

  predicate InSlot<K, V>(s: Sys<K, V>, k: K) { s.a.slotOf(k) == s.slot }

  /** The one map the two databases stand for. */
  function Logical<K(==), V>(s: Sys<K, V>): map<K, V> {
    (map k | k in s.a.db && InSlot(s, k) && k !in InFlight(s) :: s.a.db[k])
    + (map k | k in s.b.db && InSlot(s, k) :: s.b.db[k])
  }

  function QueryOf<K, V>(c: Cmd<K, V>, asking: bool, readonly: bool): Query<K> {
    Query(c.cmds, false, asking, readonly)
  }

  predicate DistinctKeys<K(==)>(ks: seq<K>) {
    forall i, j | 0 <= i < j < |ks| :: ks[i] != ks[j]
  }

  /** Which events can happen. The operator's part: MIGRATE is started only while A is migrating the slot to
      B, and B is told to claim the slot only once A holds no key of it. ASKING is sent only after an ASK. */
  ghost predicate Enabled<K(!new), V>(s: Sys<K, V>, e: Event<K, V>)
    requires Sized(s.a) && Sized(s.b)
  {
    match e
    case ClientAtA(c, asking, _) => !s.busy && (asking ==> c.cmds in s.asked)
    case ClientAtB(c, asking, _) => asking ==> c.cmds in s.asked
    case MigratingAtA => !s.busy
    case ImportingAtB => true
    case NodeAtA => !s.busy
    case NodeAtB => !s.busy && !Holds(s.a, s.slot) && (MigratingSlot(s.a, s.slot) || s.a.slots[s.slot] == Some(s.b.me))
    case LearnAtA => !s.busy && s.b.slots[s.slot] == Some(s.b.me)
    case MigrateStart(ks) =>
      && !s.busy && MigratingSlot(s.a, s.slot)
      && (forall k | k in ks :: InSlot(s, k))
      && Route(s.a, Query([ks], true, false, false)) == Serve
    case RestoreAtB => s.restores != []
    case ReplyAtA => s.acks != []
    case MigrateEnd => s.busy && s.restores == [] && s.acks == []
  }

  /** The keys of ks that A holds, with their values: what MIGRATE sends. */
  function Payload<K(==), V>(db: map<K, V>, ks: seq<K>): seq<(K, V)> {
    if ks == [] then []
    else if ks[0] in db then [(ks[0], db[ks[0]])] + Payload(db, ks[1..])
    else Payload(db, ks[1..])
  }

  /** The keys MIGRATE sends. */
  function Sent<K(==), V>(db: map<K, V>, ks: seq<K>): seq<K> {
    var p := Payload(db, ks);
    seq(|p|, (i: nat) requires i < |p| => p[i].0)
  }

  /** A MIGRATE does not name a key twice that A holds. */
  predicate NoRepeats<K(==), V>(s: Sys<K, V>, e: Event<K, V>) {
    e.MigrateStart? ==> DistinctKeys(Sent(s.a.db, e.keys))
  }

  ghost function Step<K(!new), V>(s: Sys<K, V>, e: Event<K, V>): Sys<K, V>
    requires Sized(s.a) && Sized(s.b) && Enabled(s, e)
  {
    match e
    case ClientAtA(c, asking, ro) =>
      (match Route(s.a, QueryOf(c, asking, ro))
       case Serve => s.(a := s.a.(db := Exec(s.a.db, c)))
       case Ask(_) => s.(asked := s.asked + {c.cmds})
       case _ => s)
    case ClientAtB(c, asking, ro) =>
      (match Route(s.b, QueryOf(c, asking, ro))
       case Serve => s.(b := s.b.(db := Exec(s.b.db, c)))
       case _ => s)
    case MigratingAtA => s.(a := SetMigrating(s.a, s.slot, s.b.me).0)
    case ImportingAtB => s.(b := SetImporting(s.b, s.slot, s.a.me).0)
    case NodeAtA => s.(a := SetNode(s.a, s.slot, s.b.me).0)
    case NodeAtB => s.(b := SetNode(s.b, s.slot, s.b.me).0)
    case LearnAtA => s.(a := s.a.(slots := s.a.slots[s.slot := Some(s.b.me)]))
    case MigrateStart(ks) => s.(busy := true, restores := Payload(s.a.db, ks))
    case RestoreAtB =>
      var (k, v) := s.restores[0];
      var s1 := s.(restores := s.restores[1..]);
      if Route(s.b, Query([[k]], false, true, false)) == Serve && k !in s.b.db then
        s1.(b := s.b.(db := s.b.db[k := v]), acks := s.acks + [(k, true)])
      else s1.(acks := s.acks + [(k, false)])
    case ReplyAtA =>
      var (k, ok) := s.acks[0];
      var s1 := s.(acks := s.acks[1..]);
      if ok then s1.(a := s.a.(db := s.a.db - {k})) else s1
    case MigrateEnd => s.(busy := false)
  }

  // ---- the invariant ----

  /** The keys of the MIGRATE in progress: replies first, then RESTOREs not yet executed. */
  function Moving<K, V>(s: Sys<K, V>): seq<K> {
    seq(|s.acks|, (i: nat) requires i < |s.acks| => s.acks[i].0)
    + seq(|s.restores|, (i: nat) requires i < |s.restores| => s.restores[i].0)
  }

  ghost predicate SlotStates<K, V>(s: Sys<K, V>) {
    && Sized(s.a) && Sized(s.b)
    && s.a.me != s.b.me && s.a.master.None? && s.b.master.None? && s.b.slotOf == s.a.slotOf
    && (s.a.slots[s.slot] == Some(s.a.me) || s.a.slots[s.slot] == Some(s.b.me))
    && (s.b.slots[s.slot] == Some(s.a.me) || s.b.slots[s.slot] == Some(s.b.me))
    && (s.a.migrating[s.slot] == None || s.a.migrating[s.slot] == Some(s.b.me))
    && s.a.importing[s.slot] == None && s.b.migrating[s.slot] == None
  }

  /** Resharding has not started on A: A owns the slot and is not migrating it. */
  ghost predicate Untouched<K, V>(s: Sys<K, V>)
    requires SlotStates(s)
  {
    s.a.slots[s.slot] == Some(s.a.me) && s.a.migrating[s.slot].None?
  }

  ghost predicate Phases<K(!new), V>(s: Sys<K, V>)
    requires SlotStates(s)
  {
    && (Untouched(s) ==> s.b.slots[s.slot] == Some(s.a.me) && !Holds(s.b, s.slot) && !s.busy)
    && (s.a.slots[s.slot] == Some(s.b.me) || s.b.slots[s.slot] == Some(s.b.me) ==> !Holds(s.a, s.slot))
  }

  /** Every outstanding ASK names a key that A does not have. */
  ghost predicate Tokens<K(!new), V>(s: Sys<K, V>)
    requires SlotStates(s)
  {
    forall t | t in s.asked && Keys(t) != [] && InSlot(s, Keys(t)[0]) ::
      !Untouched(s) && exists k | k in Keys(t) :: k !in s.a.db && InSlot(s, k)
  }

  /** A key is on both nodes only while its reply is on the way. */
  ghost predicate Apart<K(!new), V>(s: Sys<K, V>) {
    forall k | k in s.a.db && k in s.b.db && InSlot(s, k) :: k in InFlight(s)
  }

  ghost predicate Transfers<K(!new), V>(s: Sys<K, V>) {
    && (!s.busy ==> s.restores == [] && s.acks == [])
    && DistinctKeys(Moving(s))
    && (forall i | 0 <= i < |s.restores| ::
          InSlot(s, s.restores[i].0) && s.restores[i].0 in s.a.db && s.a.db[s.restores[i].0] == s.restores[i].1)
    && (forall i | 0 <= i < |s.acks| :: InSlot(s, s.acks[i].0) && s.acks[i].0 in s.a.db)
  }

  ghost predicate Inv<K(!new), V>(s: Sys<K, V>) {
    SlotStates(s) && Phases(s) && Tokens(s) && Apart(s) && Transfers(s)
  }

  // ---- commands ----

  /** Running a command touches only its own keys. */
  lemma ExecOther<K, V>(m: map<K, V>, c: Cmd<K, V>, k: K)
    requires k !in Keys(c.cmds)
    ensures k in Exec(m, c) <==> k in m
    ensures k in m ==> Exec(m, c)[k] == m[k]
  {
  }

  /** The slot a query addresses is ours. */
  predicate Ours<K, V>(s: Sys<K, V>, c: Cmd<K, V>) {
    Keys(c.cmds) != [] && InSlot(s, Keys(c.cmds)[0])
  }

  /** A command that A serves finds all its existing keys on A, and on A alone. */
  lemma ServedAtA<K(!new), V>(s: Sys<K, V>, c: Cmd<K, V>, asking: bool, ro: bool)
    requires Inv(s) && !s.busy && Ours(s, c) && Route(s.a, QueryOf(c, asking, ro)) == Serve
    ensures forall k | k in Keys(c.cmds) :: InSlot(s, k) && k !in s.b.db
    ensures !Untouched(s) ==> forall k | k in Keys(c.cmds) :: k in s.a.db
    ensures s.a.slots[s.slot] == Some(s.a.me)
  {
    var ks := Keys(c.cmds);
    assert OneSlot(s.a, ks);
    assert s.a.slots[s.slot] == Some(s.a.me);
    forall k | k in ks ensures InSlot(s, k) && k !in s.b.db && (!Untouched(s) ==> k in s.a.db) {
      assert s.a.slotOf(k) == s.a.slotOf(ks[0]);
    }
  }

  /** A command that B serves finds all its existing keys on B. */
  lemma ServedAtB<K(!new), V>(s: Sys<K, V>, c: Cmd<K, V>, asking: bool, ro: bool)
    requires Inv(s) && Ours(s, c) && Route(s.b, QueryOf(c, asking, ro)) == Serve
    requires asking ==> c.cmds in s.asked
    ensures !Untouched(s)
    ensures forall k | k in Keys(c.cmds) :: InSlot(s, k) && (k in s.a.db ==> k in InFlight(s))
  {
    var ks := Keys(c.cmds);
    assert OneSlot(s.b, ks);
    forall k | k in ks ensures InSlot(s, k) && (k in s.a.db ==> k in InFlight(s)) {
      assert s.b.slotOf(k) == s.b.slotOf(ks[0]);
      if s.b.slots[s.slot] != Some(s.b.me) {
        if !SeveralKeys(ks) { assert ks[0] in ks && k == ks[0]; }
      }
    }
  }

  // ---- one lemma per kind of change ----

  /** Same keys and values of our slot. */
  ghost predicate SameSlot<K(!new), V>(s: Sys<K, V>, m: map<K, V>, n: map<K, V>) {
    forall k | InSlot(s, k) :: (k in m <==> k in n) && (k in m ==> m[k] == n[k])
  }

  /** Databases that agree on the slot are interchangeable. */
  lemma Frame<K(!new), V>(s: Sys<K, V>, adb: map<K, V>, bdb: map<K, V>)
    requires Inv(s) && SameSlot(s, adb, s.a.db) && SameSlot(s, bdb, s.b.db)
    ensures Inv(s.(a := s.a.(db := adb), b := s.b.(db := bdb)))
    ensures Logical(s.(a := s.a.(db := adb), b := s.b.(db := bdb))) == Logical(s)
  {
    var s' := s.(a := s.a.(db := adb), b := s.b.(db := bdb));
    HoldsSame(s, s.a, s'.a);
    HoldsSame(s, s.b, s'.b);
    assert InFlight(s') == InFlight(s) && Moving(s') == Moving(s);
    FrameLogical(s, s');
    hide Moving, InFlight, Holds, Keys, Logical;
    assert forall k :: InSlot(s', k) == InSlot(s, k);
    assert Tokens(s') by { TokensKept(s, s'); }
  }

  lemma FrameLogical<K(!new), V>(s: Sys<K, V>, s': Sys<K, V>)
    requires SameSlot(s, s'.a.db, s.a.db) && SameSlot(s, s'.b.db, s.b.db)
    requires s'.slot == s.slot && s'.a.slotOf == s.a.slotOf && InFlight(s') == InFlight(s)
    ensures Logical(s') == Logical(s)
  {
    forall k ensures (k in Logical(s') <==> k in Logical(s)) && (k in Logical(s') ==> Logical(s')[k] == Logical(s)[k]) {
      hide Logical, InFlight;
      LogicalAt(s, k);
      LogicalAt(s', k);
    }
  }

  lemma HoldsSame<K(!new), V>(s: Sys<K, V>, v: View<K, V>, w: View<K, V>)
    requires SameSlot(s, w.db, v.db) && v.slotOf == s.a.slotOf && w.slotOf == s.a.slotOf
    ensures Holds(v, s.slot) == Holds(w, s.slot)
  {
    if Holds(v, s.slot) {
      var k :| k in v.db && v.slotOf(k) == s.slot;
      assert InSlot(s, k) && k in w.db;
    }
    if Holds(w, s.slot) {
      var k :| k in w.db && w.slotOf(k) == s.slot;
      assert InSlot(s, k) && k in v.db;
    }
  }

  /** A served command on another slot changes nothing of ours. */
  lemma OtherSlot<K(!new), V>(s: Sys<K, V>, v: View<K, V>, c: Cmd<K, V>, asking: bool, ro: bool)
    requires Sized(v) && v.slotOf == s.a.slotOf
    requires !Ours(s, c) && Route(v, QueryOf(c, asking, ro)) == Serve
    ensures SameSlot(s, Exec(v.db, c), v.db)
  {
    forall k | InSlot(s, k) ensures k !in Keys(c.cmds) {
      if k in Keys(c.cmds) { OneSlotKey(s, v, c, asking, ro, k); }
    }
  }

  lemma OneSlotKey<K(!new), V>(s: Sys<K, V>, v: View<K, V>, c: Cmd<K, V>, asking: bool, ro: bool, k: K)
    requires Sized(v) && v.slotOf == s.a.slotOf
    requires Route(v, QueryOf(c, asking, ro)) == Serve && k in Keys(c.cmds) && InSlot(s, k)
    ensures Ours(s, c)
  {
    assert OneSlot(v, Keys(c.cmds));
    assert v.slotOf(k) == v.slotOf(Keys(c.cmds)[0]);
  }

  /** Membership and value of one key in the logical map. */
  lemma LogicalAt<K(!new), V>(s: Sys<K, V>, k: K)
    ensures k in Logical(s) <==> InSlot(s, k) && (k in s.b.db || (k in s.a.db && k !in InFlight(s)))
    ensures k in Logical(s) ==> Logical(s)[k] == if k in s.b.db then s.b.db[k] else s.a.db[k]
  {
  }

  /** Running a command on a map and on a node that agree on its keys gives maps that agree at k. */
  lemma ExecAgree<K, V>(m: map<K, V>, n: map<K, V>, c: Cmd<K, V>, k: K)
    requires forall q | q in Keys(c.cmds) :: (q in m <==> q in n) && (q in m ==> m[q] == n[q])
    requires k !in Keys(c.cmds) ==> (k in m <==> k in n) && (k in m ==> m[k] == n[k])
    ensures k in Exec(m, c) <==> k in Exec(n, c)
    ensures k in Exec(m, c) ==> Exec(m, c)[k] == Exec(n, c)[k]
  {
    assert Restrict(m, Keys(c.cmds)) == Restrict(n, Keys(c.cmds));
  }

  lemma RunAtALogicalAt<K(!new), V>(s: Sys<K, V>, s': Sys<K, V>, c: Cmd<K, V>, k: K)
    requires Inv(s) && !s.busy && InFlight(s) == {} && InFlight(s') == {} && s' == s.(a := s.a.(db := Exec(s.a.db, c)))
    requires forall k | k in Keys(c.cmds) :: InSlot(s, k) && k !in s.b.db
    ensures var l, l', e := Logical(s), Logical(s'), Exec(Logical(s), c);
      (k in l' <==> k in e) && (k in l' ==> l'[k] == e[k])
  {
    hide Logical, Exec, Keys, InFlight, Inv;
    var l := Logical(s);
    LogicalAt(s, k);
    LogicalAt(s', k);
    assert InSlot(s', k) == InSlot(s, k);
    if k in Keys(c.cmds) {
      forall q | q in Keys(c.cmds) ensures (q in s.a.db <==> q in l) && (q in s.a.db ==> s.a.db[q] == l[q]) {
        LogicalAt(s, q);
      }
      ExecAgree(s.a.db, l, c, k);
    } else {
      ExecOther(s.a.db, c, k);
      ExecOther(l, c, k);
    }
  }

  lemma RunAtALogical<K(!new), V>(s: Sys<K, V>, c: Cmd<K, V>)
    requires Inv(s) && !s.busy
    requires forall k | k in Keys(c.cmds) :: InSlot(s, k) && k !in s.b.db
    ensures Logical(s.(a := s.a.(db := Exec(s.a.db, c)))) == Exec(Logical(s), c)
  {
    var s' := s.(a := s.a.(db := Exec(s.a.db, c)));
    var l, l', e := Logical(s), Logical(s'), Exec(Logical(s), c);
    assert InFlight(s) == {} && InFlight(s') == {};
    hide Logical, Exec, InFlight;
    forall k ensures (k in l' <==> k in e) && (k in l' ==> l'[k] == e[k]) { RunAtALogicalAt(s, s', c, k); }
  }

  /** A serves a command of the slot. */
  lemma RunAtA<K(!new), V>(s: Sys<K, V>, c: Cmd<K, V>, asking: bool, ro: bool)
    requires Inv(s) && !s.busy && Ours(s, c) && Route(s.a, QueryOf(c, asking, ro)) == Serve
    ensures Inv(s.(a := s.a.(db := Exec(s.a.db, c))))
    ensures Logical(s.(a := s.a.(db := Exec(s.a.db, c)))) == Exec(Logical(s), c)
    ensures !Untouched(s) ==> forall k | k in Exec(s.a.db, c) :: k in s.a.db
  {
    ServedAtA(s, c, asking, ro);
    RunAtALogical(s, c);
    hide Route, Keys, Logical;
    forall k | !Untouched(s) && k in Exec(s.a.db, c) ensures k in s.a.db {
      if k !in Keys(c.cmds) { ExecOther(s.a.db, c, k); }
    }
    RunAtAInv(s, c);
  }

  lemma RunAtAInv<K(!new), V>(s: Sys<K, V>, c: Cmd<K, V>)
    requires Inv(s) && !s.busy && s.a.slots[s.slot] == Some(s.a.me)
    requires forall k | k in Keys(c.cmds) :: InSlot(s, k) && k !in s.b.db
    requires !Untouched(s) ==> forall k | k in Exec(s.a.db, c) :: k in s.a.db
    ensures Inv(s.(a := s.a.(db := Exec(s.a.db, c))))
  {
    var s' := s.(a := s.a.(db := Exec(s.a.db, c)));
    assert Moving(s') == [];
    hide Route, Keys, Moving;
    assert SlotStates(s') && Untouched(s') == Untouched(s);
    assert Phases(s') by {
      if s.b.slots[s.slot] == Some(s.b.me) { assert !Holds(s'.a, s.slot); }
    }
    assert Tokens(s') by { TokensKept(s, s'); }
    assert Apart(s') by {
      assert InFlight(s') == InFlight(s);
      forall k | k in s'.a.db && k in s'.b.db && InSlot(s', k) ensures k in InFlight(s') {
        assert k !in Keys(c.cmds);
        ExecOther(s.a.db, c, k);
      }
    }
  }

  /** Outstanding ASKs stay justified while A gains no key of the slot. */
  lemma TokensKept<K(!new), V>(s: Sys<K, V>, s': Sys<K, V>)
    requires SlotStates(s) && SlotStates(s') && Tokens(s) && s'.asked == s.asked
    requires s'.slot == s.slot && s'.a.slotOf == s.a.slotOf && (Untouched(s') ==> Untouched(s))
    requires !Untouched(s) ==> forall k | k in s'.a.db && InSlot(s, k) :: k in s.a.db
    ensures Tokens(s')
  {
    forall t | t in s'.asked && Keys(t) != [] && InSlot(s', Keys(t)[0])
      ensures !Untouched(s') && exists k | k in Keys(t) :: k !in s'.a.db && InSlot(s', k)
    {
      assert InSlot(s, Keys(t)[0]);
      var k :| k in Keys(t) && k !in s.a.db && InSlot(s, k);
      assert k !in s'.a.db && InSlot(s', k);
    }
  }

  lemma RunAtBLogical<K(!new), V>(s: Sys<K, V>, c: Cmd<K, V>)
    requires forall k | k in Keys(c.cmds) :: InSlot(s, k) && (k in s.a.db ==> k in InFlight(s))
    ensures Logical(s.(b := s.b.(db := Exec(s.b.db, c)))) == Exec(Logical(s), c)
  {
    var s' := s.(b := s.b.(db := Exec(s.b.db, c)));
    var l, l', e := Logical(s), Logical(s'), Exec(Logical(s), c);
    assert InFlight(s) == InFlight(s');
    forall k ensures (k in l' <==> k in e) && (k in l' ==> l'[k] == e[k]) {
      hide Logical, Exec, Keys, InFlight;
      LogicalAt(s, k);
      LogicalAt(s', k);
      assert InSlot(s', k) == InSlot(s, k);
      if k in Keys(c.cmds) {
        forall q | q in Keys(c.cmds) ensures (q in s.b.db <==> q in l) && (q in s.b.db ==> s.b.db[q] == l[q]) {
          LogicalAt(s, q);
        }
        ExecAgree(s.b.db, l, c, k);
      } else {
        ExecOther(s.b.db, c, k);
        ExecOther(l, c, k);
      }
    }
  }

  /** B serves a command of the slot. */
  lemma RunAtB<K(!new), V>(s: Sys<K, V>, c: Cmd<K, V>, asking: bool, ro: bool)
    requires Inv(s) && Ours(s, c) && Route(s.b, QueryOf(c, asking, ro)) == Serve
    requires asking ==> c.cmds in s.asked
    ensures Inv(s.(b := s.b.(db := Exec(s.b.db, c))))
    ensures Logical(s.(b := s.b.(db := Exec(s.b.db, c)))) == Exec(Logical(s), c)
  {
    var s' := s.(b := s.b.(db := Exec(s.b.db, c)));
    ServedAtB(s, c, asking, ro);
    RunAtBLogical(s, c);
    assert InFlight(s') == InFlight(s) && Moving(s') == Moving(s);
    hide Route, Keys, InFlight, Moving, Logical;
    assert Apart(s') by {
      forall k | k in s'.a.db && k in s'.b.db && InSlot(s', k) ensures k in InFlight(s') {
        assert InSlot(s, k);
        if k !in Keys(c.cmds) { ExecOther(s.b.db, c, k); }
      }
    }
    assert Tokens(s') by { TokensKept(s, s'); }
  }

  /** A answers ASK: a key of the query is missing on A, and A is migrating. */
  lemma AskAtA<K(!new), V>(s: Sys<K, V>, c: Cmd<K, V>, asking: bool, ro: bool)
    requires Inv(s) && Route(s.a, QueryOf(c, asking, ro)).Ask?
    ensures Inv(s.(asked := s.asked + {c.cmds})) && Logical(s.(asked := s.asked + {c.cmds})) == Logical(s)
  {
    var s' := s.(asked := s.asked + {c.cmds});
    assert InFlight(s') == InFlight(s) && Moving(s') == Moving(s);
    AskedTokens(s, c, asking, ro);
    hide Route, Keys, InFlight, Moving, Tokens;
  }

  lemma AskedTokens<K(!new), V>(s: Sys<K, V>, c: Cmd<K, V>, asking: bool, ro: bool)
    requires SlotStates(s) && Tokens(s) && Route(s.a, QueryOf(c, asking, ro)).Ask?
    ensures SlotStates(s.(asked := s.asked + {c.cmds})) && Tokens(s.(asked := s.asked + {c.cmds}))
  {
    var ks := Keys(c.cmds);
    assert OneSlot(s.a, ks) && Missing(s.a, ks);
    if Ours(s, c) {
      var k :| k in ks && k !in s.a.db;
      assert InSlot(s, k);
    }
    hide Route, Keys;
  }

  // ---- SETSLOT and configuration events ----

  /** An event that changes only slot states keeps the databases, hence the map. */
  ghost predicate OnlySlots<K, V>(s: Sys<K, V>, s': Sys<K, V>) {
    && s'.slot == s.slot && s'.asked == s.asked && s'.busy == s.busy
    && s'.restores == s.restores && s'.acks == s.acks
    && s'.a.db == s.a.db && s'.b.db == s.b.db && s'.a.slotOf == s.a.slotOf
  }

  lemma OnlySlotsKeeps<K(!new), V>(s: Sys<K, V>, s': Sys<K, V>)
    requires Inv(s) && OnlySlots(s, s') && SlotStates(s') && Phases(s') && (Untouched(s') ==> Untouched(s))
    ensures Inv(s') && Logical(s') == Logical(s)
  {
    assert InFlight(s') == InFlight(s) && Moving(s') == Moving(s);
    assert forall k :: InSlot(s', k) == InSlot(s, k);
    hide InFlight, Moving, Keys;
    TokensKept(s, s');
  }

  lemma SetSlotKeeps<K(!new), V>(s: Sys<K, V>, e: Event<K, V>)
    requires Inv(s) && Enabled(s, e)
    requires e.MigratingAtA? || e.ImportingAtB? || e.NodeAtA? || e.NodeAtB? || e.LearnAtA?
    ensures Inv(Step(s, e)) && Logical(Step(s, e)) == Logical(s)
  {
    var s' := Step(s, e);
    assert OnlySlots(s, s') && SlotStates(s');
    assert Holds(s'.a, s.slot) == Holds(s.a, s.slot) && Holds(s'.b, s.slot) == Holds(s.b, s.slot);
    hide Logical, InFlight, Moving, Keys, Transfers, Apart, Tokens;
    OnlySlotsKeeps(s, s');
  }

  // ---- MIGRATE ----

  lemma {:induction false} PayloadFacts<K, V>(db: map<K, V>, ks: seq<K>)
    ensures forall x | x in Payload(db, ks) :: x.0 in ks && x.0 in db && db[x.0] == x.1
  {
    if ks != [] { PayloadFacts(db, ks[1..]); }
  }

  lemma StartTransfers<K(!new), V>(s: Sys<K, V>, ks: seq<K>)
    requires Inv(s) && !s.busy && DistinctKeys(Sent(s.a.db, ks)) && (forall k | k in ks :: InSlot(s, k))
    ensures Transfers(s.(busy := true, restores := Payload(s.a.db, ks)))
  {
    var s' := s.(busy := true, restores := Payload(s.a.db, ks));
    PayloadFacts(s.a.db, ks);
    hide Payload, Keys;
    assert Moving(s') == Sent(s.a.db, ks);
    forall i | 0 <= i < |s'.restores|
      ensures InSlot(s', s'.restores[i].0) && s'.restores[i].0 in s.a.db && s.a.db[s'.restores[i].0] == s'.restores[i].1
    {
      assert s'.restores[i] in s'.restores;
    }
  }

  lemma StartKeeps<K(!new), V>(s: Sys<K, V>, ks: seq<K>)
    requires Inv(s) && Enabled(s, MigrateStart(ks)) && DistinctKeys(Sent(s.a.db, ks))
    ensures Inv(Step(s, MigrateStart(ks))) && Logical(Step(s, MigrateStart(ks))) == Logical(s)
  {
    StartTransfers(s, ks);
    StartStates(s, Step(s, MigrateStart(ks)));
    hide SlotStates, Phases, Tokens, Apart, Transfers, Logical, Route, Payload;
  }

  /** Becoming busy with transfers of a slot that is being migrated touches nothing else. */
  lemma StartStates<K(!new), V>(s: Sys<K, V>, s': Sys<K, V>)
    requires Inv(s) && !s.busy && MigratingSlot(s.a, s.slot) && s' == s.(busy := true, restores := s'.restores)
    ensures SlotStates(s') && Phases(s') && Tokens(s') && Apart(s') && Logical(s') == Logical(s)
  {
    assert InFlight(s') == InFlight(s);
    assert SlotStates(s') && Untouched(s') == Untouched(s);
    hide InFlight, Keys, Transfers;
    TokensKept(s, s');
    hide Tokens;
  }

  /** The keys of the transfer after one RESTORE: the same, in the same order. */
  lemma MovingRestore<K(!new), V>(s: Sys<K, V>, s': Sys<K, V>, ok: bool)
    requires s.restores != [] && s'.restores == s.restores[1..] && s'.acks == s.acks + [(s.restores[0].0, ok)]
    ensures Moving(s') == Moving(s)
    ensures InFlight(s') == InFlight(s) + if ok then {s.restores[0].0} else {}
  {
    var k := s.restores[0].0;
    forall q ensures q in InFlight(s') <==> q in InFlight(s) || (ok && q == k) {
      if q in InFlight(s) { assert (q, true) in s.acks; assert (q, true) in s'.acks; }
      if ok && q == k { assert s'.acks[|s.acks|] == (q, true); assert (q, true) in s'.acks; }
    }
  }

  lemma RestoreFresh<K(!new), V>(s: Sys<K, V>)
    requires Inv(s) && s.restores != []
    ensures s.restores[0].0 !in InFlight(s) && s.restores[0].0 !in s.b.db
    ensures InSlot(s, s.restores[0].0) && s.restores[0].0 in s.a.db && s.a.db[s.restores[0].0] == s.restores[0].1
  {
    var m := Moving(s);
    assert m[|s.acks|] == s.restores[0].0;
    assert forall i | 0 <= i < |s.acks| :: m[i] == s.acks[i].0;
  }

  lemma RestoreKeeps<K(!new), V>(s: Sys<K, V>)
    requires Inv(s) && s.restores != []
    ensures Inv(Step(s, RestoreAtB)) && Logical(Step(s, RestoreAtB)) == Logical(s)
  {
    var (k, v) := s.restores[0];
    var s' := Step(s, RestoreAtB);
    var ok := Route(s.b, Query([[k]], false, true, false)) == Serve && k !in s.b.db;
    RestoreFresh(s);
    MovingRestore(s, s', ok);
    hide Route, Moving, Keys;
    RestoreInv(s, s', ok);
    assert Logical(s') == Logical(s) by {
      forall q ensures (q in Logical(s') <==> q in Logical(s))
          && (q in Logical(s') ==> Logical(s')[q] == Logical(s)[q]) {
        hide Logical, InFlight;
        LogicalAt(s, q);
        LogicalAt(s', q);
      }
    }
  }

  lemma RestoreInv<K(!new), V>(s: Sys<K, V>, s': Sys<K, V>, ok: bool)
    requires Inv(s) && s.restores != []
    requires var (k, v) := s.restores[0];
             s' == s.(restores := s.restores[1..], acks := s.acks + [(k, ok)],
                      b := if ok then s.b.(db := s.b.db[k := v]) else s.b)
    ensures Inv(s')
  {
    var (k, v) := s.restores[0];
    RestoreFresh(s);
    MovingRestore(s, s', ok);
    hide Moving, Keys, InFlight;
    assert s.busy && !Untouched(s);
    assert Transfers(s') by {
      forall i | 0 <= i < |s'.restores| ensures s'.restores[i] == s.restores[i + 1] { }
    }
    assert Apart(s') by {
      forall q | q in s'.a.db && q in s'.b.db && InSlot(s', q) ensures q in InFlight(s') {
        assert InSlot(s, q);
      }
    }
    assert Tokens(s') by { TokensKept(s, s'); }
  }

  lemma MovingReply<K(!new), V>(s: Sys<K, V>, s': Sys<K, V>)
    requires s.acks != [] && s'.acks == s.acks[1..] && s'.restores == s.restores
    requires DistinctKeys(Moving(s))
    ensures Moving(s') == Moving(s)[1..] && DistinctKeys(Moving(s'))
    ensures InFlight(s') == InFlight(s) - {s.acks[0].0}
    ensures s.acks[0].1 <==> s.acks[0].0 in InFlight(s)
    ensures forall i | 0 <= i < |s'.acks| :: s'.acks[i].0 != s.acks[0].0
    ensures forall i | 0 <= i < |s'.restores| :: s'.restores[i].0 != s.acks[0].0
  {
    var k := s.acks[0].0;
    var m, m' := Moving(s), Moving(s');
    assert m' == m[1..];
    assert forall i | 0 <= i < |m'| :: m'[i] == m[i + 1];
    assert m[0] == k;
    forall i | 0 <= i < |s'.acks| ensures s'.acks[i].0 != k { assert m[i + 1] == s'.acks[i].0; }
    forall i | 0 <= i < |s'.restores| ensures s'.restores[i].0 != k { assert m[|s.acks| + i] == s.restores[i].0; }
    forall q ensures q in InFlight(s') <==> q in InFlight(s) && q != k {
      if q in InFlight(s) && q != k {
        var i :| 0 <= i < |s.acks| && s.acks[i] == (q, true);
        assert s'.acks[i - 1] == (q, true);
        assert (q, true) in s'.acks;
      }
      if q in InFlight(s') {
        var i :| 0 <= i < |s'.acks| && s'.acks[i] == (q, true);
        assert s.acks[i + 1] == (q, true);
        assert (q, true) in s.acks;
      }
    }
    if k in InFlight(s) {
      var i :| 0 <= i < |s.acks| && s.acks[i] == (k, true);
      assert m[i] == k;
    }
    assert s.acks[0] in s.acks;
  }

  lemma ReplyKeeps<K(!new), V>(s: Sys<K, V>)
    requires Inv(s) && s.acks != []
    ensures Inv(Step(s, ReplyAtA)) && Logical(Step(s, ReplyAtA)) == Logical(s)
  {
    var (k, ok) := s.acks[0];
    var s' := Step(s, ReplyAtA);
    MovingReply(s, s');
    hide Route, Moving, Keys;
    assert Logical(s') == Logical(s) by {
      forall q ensures (q in Logical(s') <==> q in Logical(s))
          && (q in Logical(s') ==> Logical(s')[q] == Logical(s)[q]) {
        hide Logical, InFlight;
        LogicalAt(s, q);
        LogicalAt(s', q);
      }
    }
    ReplyInv(s);
  }

  lemma ReplyInv<K(!new), V>(s: Sys<K, V>)
    requires Inv(s) && s.acks != []
    ensures Inv(Step(s, ReplyAtA))
  {
    var (k, ok) := s.acks[0];
    var s' := Step(s, ReplyAtA);
    MovingReply(s, s');
    hide Moving, Keys, InFlight, Route;
    assert s.busy && !Untouched(s);
    assert Transfers(s') by {
      forall i | 0 <= i < |s'.acks| ensures s'.acks[i] == s.acks[i + 1] { }
    }
    assert Apart(s') by {
      forall q | q in s'.a.db && q in s'.b.db && InSlot(s', q) ensures q in InFlight(s') {
        assert InSlot(s, q);
      }
    }
    assert Tokens(s') by { TokensKept(s, s'); }
  }

  // ---- every event, every run ----

  /** The command of the slot that an event runs, if it runs one. */
  ghost function Ran<K(!new), V>(s: Sys<K, V>, e: Event<K, V>): Option<Cmd<K, V>>
    requires Sized(s.a) && Sized(s.b)
  {
    match e
    case ClientAtA(c, asking, ro) => if Ours(s, c) && Route(s.a, QueryOf(c, asking, ro)) == Serve then Some(c) else None
    case ClientAtB(c, asking, ro) => if Ours(s, c) && Route(s.b, QueryOf(c, asking, ro)) == Serve then Some(c) else None
    case _ => None
  }

  /** Every event keeps the invariant, and is either one command on the logical map or invisible to it. */
  lemma StepRefines<K(!new), V>(s: Sys<K, V>, e: Event<K, V>)
    requires Inv(s) && Enabled(s, e) && NoRepeats(s, e)
    ensures Inv(Step(s, e))
    ensures Logical(Step(s, e)) == match Ran(s, e) case Some(c) => Exec(Logical(s), c) case None => Logical(s)
  {
    hide Inv, Logical, Exec, Route, Keys;
    match e
    case ClientAtA(c, asking, ro) => ClientAtARefines(s, c, asking, ro);
    case ClientAtB(c, asking, ro) => ClientAtBRefines(s, c, asking, ro);
    case MigrateStart(ks) => StartKeeps(s, ks);
    case RestoreAtB => RestoreKeeps(s);
    case ReplyAtA => ReplyKeeps(s);
    case MigrateEnd => EndKeeps(s);
    case _ => SetSlotKeeps(s, e);
  }

  lemma EndKeeps<K(!new), V>(s: Sys<K, V>)
    requires Inv(s) && s.restores == [] && s.acks == []
    ensures Inv(s.(busy := false)) && Logical(s.(busy := false)) == Logical(s)
  {
    assert InFlight(s.(busy := false)) == InFlight(s) && Moving(s.(busy := false)) == Moving(s);
    hide InFlight, Moving, Keys;
    assert Tokens(s.(busy := false)) by { TokensKept(s, s.(busy := false)); }
  }

  lemma ClientAtARefines<K(!new), V>(s: Sys<K, V>, c: Cmd<K, V>, asking: bool, ro: bool)
    requires Inv(s) && Enabled(s, ClientAtA(c, asking, ro))
    ensures var e := ClientAtA(c, asking, ro);
            && Inv(Step(s, e))
            && Logical(Step(s, e)) == match Ran(s, e) case Some(c) => Exec(Logical(s), c) case None => Logical(s)
  {
    hide Logical, Exec, Keys, Route, Phases, Tokens, Apart, Transfers;
    var r := Route(s.a, QueryOf(c, asking, ro));
    if r.Serve? && Ours(s, c) {
      RunAtA(s, c, asking, ro);
    } else if r.Serve? {
      OtherSlot(s, s.a, c, asking, ro);
      Frame(s, Exec(s.a.db, c), s.b.db);
    } else if r.Ask? {
      AskAtA(s, c, asking, ro);
    }
  }

  lemma ClientAtBRefines<K(!new), V>(s: Sys<K, V>, c: Cmd<K, V>, asking: bool, ro: bool)
    requires Inv(s) && Enabled(s, ClientAtB(c, asking, ro))
    ensures var e := ClientAtB(c, asking, ro);
            && Inv(Step(s, e))
            && Logical(Step(s, e)) == match Ran(s, e) case Some(c) => Exec(Logical(s), c) case None => Logical(s)
  {
    hide Logical, Exec, Keys, Route, Phases, Tokens, Apart, Transfers;
    var r := Route(s.b, QueryOf(c, asking, ro));
    if r.Serve? && Ours(s, c) {
      RunAtB(s, c, asking, ro);
    } else if r.Serve? {
      OtherSlot(s, s.b, c, asking, ro);
      Frame(s, s.a.db, Exec(s.b.db, c));
    }
  }

  /** A command runs only where all of its existing keys live: none of them is on the other node, except
      that B may run a command on a key whose deletion on A is already on the way. */
  lemma RunsWhereKeysLive<K(!new), V>(s: Sys<K, V>, e: Event<K, V>, k: K)
    requires Inv(s) && Enabled(s, e) && Ran(s, e).Some?
    requires k in Keys(Ran(s, e).value.cmds) && k in Logical(s)
    ensures e.ClientAtA? ==> k in s.a.db && k !in s.b.db && Logical(s)[k] == s.a.db[k]
    ensures e.ClientAtB? ==> k in s.b.db && Logical(s)[k] == s.b.db[k]
    ensures e.ClientAtA? || e.ClientAtB?
  {
    if e.ClientAtA? {
      ServedAtA(s, e.cmd, e.asking, e.readonly);
    } else {
      ServedAtB(s, e.cmd, e.asking, e.readonly);
    }
  }

  /** Once A is migrating (or has given the slot away), A gains no key of the slot, and stays so. */
  lemma SourceNeverCreates<K(!new), V>(s: Sys<K, V>, e: Event<K, V>, k: K)
    requires Inv(s) && Enabled(s, e) && !Untouched(s) && InSlot(s, k)
    ensures SlotStates(Step(s, e)) && !Untouched(Step(s, e))
    ensures k in Step(s, e).a.db ==> k in s.a.db
  {
    if !e.MigrateStart? { StepRefines(s, e); }
    StaysTouched(s, e);
    hide Logical, Inv, Step, Enabled;
    if e.ClientAtA? {
      ClientNeverCreates(s, e.cmd, e.asking, e.readonly, k);
    } else {
      OthersNeverCreate(s, e, k);
    }
  }

  lemma StaysTouched<K(!new), V>(s: Sys<K, V>, e: Event<K, V>)
    requires Inv(s) && Enabled(s, e) && !Untouched(s) && SlotStates(Step(s, e))
    ensures !Untouched(Step(s, e))
  {
    hide Route, Keys, Tokens, Apart, Transfers, Exec, Payload, Holds;
  }

  lemma OthersNeverCreate<K(!new), V>(s: Sys<K, V>, e: Event<K, V>, k: K)
    requires Sized(s.a) && Sized(s.b) && Enabled(s, e) && !e.ClientAtA?
    ensures k in Step(s, e).a.db ==> k in s.a.db
  {
    hide Route, Keys, Exec, Payload, Holds;
  }

  lemma ClientNeverCreates<K(!new), V>(s: Sys<K, V>, c: Cmd<K, V>, asking: bool, ro: bool, k: K)
    requires Inv(s) && Enabled(s, ClientAtA(c, asking, ro)) && !Untouched(s) && InSlot(s, k)
    ensures k in Step(s, ClientAtA(c, asking, ro)).a.db ==> k in s.a.db
  {
    hide Tokens, Apart, Transfers, Exec, Logical, Route, Holds;
    if Route(s.a, QueryOf(c, asking, ro)) == Serve {
      if Ours(s, c) {
        RunAtA(s, c, asking, ro);
      } else {
        OtherSlot(s, s.a, c, asking, ro);
      }
    }
  }

  /** Outside a MIGRATE, and for every key not being moved, a key lives on at most one node. */
  lemma OneHome<K(!new), V>(s: Sys<K, V>, k: K)
    requires Inv(s) && InSlot(s, k) && (!s.busy || k !in Moving(s))
    ensures !(k in s.a.db && k in s.b.db)
  {
    assert forall i | 0 <= i < |s.acks| :: Moving(s)[i] == s.acks[i].0;
  }

  /** All events of a run can happen, one after the other. */
  ghost predicate Possible<K(!new), V>(s: Sys<K, V>, es: seq<Event<K, V>>)
    decreases |es|
  {
    Sized(s.a) && Sized(s.b) && (es == [] || (Enabled(s, es[0]) && Possible(Step(s, es[0]), es[1..])))
  }

  ghost function Final<K(!new), V>(s: Sys<K, V>, es: seq<Event<K, V>>): Sys<K, V>
    requires Possible(s, es)
    decreases |es|
  {
    if es == [] then s else Final(Step(s, es[0]), es[1..])
  }

  /** No MIGRATE of a run names a key twice. */
  ghost predicate NeverRepeats<K(!new), V>(s: Sys<K, V>, es: seq<Event<K, V>>)
    requires Possible(s, es)
    decreases |es|
  {
    es == [] || (NoRepeats(s, es[0]) && NeverRepeats(Step(s, es[0]), es[1..]))
  }

  /** The commands of the slot that a run executes, in order. */
  ghost function History<K(!new), V>(s: Sys<K, V>, es: seq<Event<K, V>>): seq<Cmd<K, V>>
    requires Possible(s, es)
    decreases |es|
  {
    if es == [] then []
    else (match Ran(s, es[0]) case Some(c) => [c] case None => []) + History(Step(s, es[0]), es[1..])
  }

  function ExecAll<K, V>(m: map<K, V>, cs: seq<Cmd<K, V>>): map<K, V>
    decreases |cs|
  {
    if cs == [] then m else ExecAll(Exec(m, cs[0]), cs[1..])
  }

  /** Live resharding refines one key-value map: whatever the interleaving, the final contents of the slot
      are those of one map on which exactly the served commands ran, in the order they were served. */
  lemma {:induction false} ReshardRefinesMap<K(!new), V>(s: Sys<K, V>, es: seq<Event<K, V>>)
    requires Inv(s) && Possible(s, es) && NeverRepeats(s, es)
    ensures Inv(Final(s, es)) && Logical(Final(s, es)) == ExecAll(Logical(s), History(s, es))
    decreases |es|
  {
    if es != [] {
      StepRefines(s, es[0]);
      hide Inv, Logical, Exec, Step, Enabled, NoRepeats, Ran;
      ReshardRefinesMap(Step(s, es[0]), es[1..]);
      var rest := History(Step(s, es[0]), es[1..]);
      match Ran(s, es[0])
      case Some(c) => assert ([c] + rest)[1..] == rest;
      case None => assert [] + rest == rest;
    }
  }

  /** Where resharding begins: A owns the slot on both sides, nothing is open, B holds none of its keys. */
  ghost predicate Initial<K(!new), V>(s: Sys<K, V>) {
    && SlotStates(s) && Untouched(s) && s.b.slots[s.slot] == Some(s.a.me) && !Holds(s.b, s.slot)
    && s.asked == {} && !s.busy && s.restores == [] && s.acks == []
  }

  lemma InitialInv<K(!new), V>(s: Sys<K, V>)
    requires Initial(s)
    ensures Inv(s) && forall k | k in Logical(s) :: k in s.a.db && Logical(s)[k] == s.a.db[k]
  {
    assert InFlight(s) == {} && Moving(s) == [];
  }
}
