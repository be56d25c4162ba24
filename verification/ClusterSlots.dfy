/** The slot table of a cluster node and the per-node slot bitmaps, which src/cluster.c updates separately
    and which must always describe the same assignment. */
module ClusterSlots {
  import opened Options
  import opened BitStrings
  import opened ClusterView

  // ---- bitmaps ----

  type Bitmap = bm: seq<bv8> | |bm| == 2048 witness seq(2048, (i: nat) => 0)

  predicate TestBit(bm: Bitmap, pos: Slot) {
    HasBit(bm[pos / 8], pos % 8)
  }

  function SetBit(bm: Bitmap, pos: Slot): Bitmap {
    bm[pos / 8 := SetByte(bm[pos / 8], pos % 8)]
  }

  function SetByte(x: bv8, k: nat): bv8
    requires k < 8
  {
    x | Mask(k)
  }

  function ClearBit(bm: Bitmap, pos: Slot): Bitmap {
    bm[pos / 8 := ClearByte(bm[pos / 8], pos % 8)]
  }

  function ClearByte(x: bv8, k: nat): bv8
    requires k < 8
  {
    x & !Mask(k)
  }

  lemma MaskApart(x: bv8, i: nat, j: nat)
    requires i < 8 && j < 8
    ensures HasBit(SetByte(x, i), j) <==> i == j || HasBit(x, j)
    ensures HasBit(ClearByte(x, i), j) <==> i != j && HasBit(x, j)
  {
    MaskOne(i);
    MaskOne(j);
    if Mask(i) == Mask(j) { MaskInjective(i, j); }
    hide Mask;
    MaskCases(x, Mask(i), Mask(j));
  }

  lemma MaskCases(x: bv8, a: bv8, b: bv8)
    requires OneBit(a) && OneBit(b)
    ensures (x | a) & b != 0 <==> a == b || x & b != 0
    ensures (x & !a) & b != 0 <==> a != b && x & b != 0
  {
  }

  /** A position is its byte and its bit. */
  lemma SamePosition(p: nat, q: nat)
    ensures p == q <==> p / 8 == q / 8 && p % 8 == q % 8
  {
  }

  /** Setting a bit sets that bit only. */
  lemma SetBitTest(bm: Bitmap, p: Slot, q: Slot)
    ensures TestBit(SetBit(bm, p), q) <==> p == q || TestBit(bm, q)
  {
    hide HasBit, SetByte;
    SamePosition(p, q);
    if p / 8 == q / 8 {
      assert SetBit(bm, p)[q / 8] == SetByte(bm[p / 8], p % 8);
      MaskApart(bm[p / 8], p % 8, q % 8);
    } else {
      assert SetBit(bm, p)[q / 8] == bm[q / 8];
    }
  }

  /** Clearing a bit clears that bit only. */
  lemma ClearBitTest(bm: Bitmap, p: Slot, q: Slot)
    ensures TestBit(ClearBit(bm, p), q) <==> p != q && TestBit(bm, q)
  {
    hide HasBit, ClearByte;
    SamePosition(p, q);
    if p / 8 == q / 8 {
      assert ClearBit(bm, p)[q / 8] == ClearByte(bm[p / 8], p % 8);
      MaskApart(bm[p / 8], p % 8, q % 8);
    } else {
      assert ClearBit(bm, p)[q / 8] == bm[q / 8];
    }
  }

  // ---- the table ----

  /** A `clusterNode`: its slot bitmap, its slot count and the config epoch we know for it. */
  datatype Node = Node(bitmap: Bitmap, numslots: nat, configEpoch: nat)

  type Table = s: seq<Option<NodeId>> | |s| == 16384 witness seq(16384, (i: nat) => None)

  /** The slots bound to n. */
  ghost function Owned(slots: Table, n: NodeId): set<nat> {
    set j: nat | j < 16384 && slots[j] == Some(n)
  }

  /** Bitmap and count of one node agree with the table. */
  ghost predicate NodeAgrees(slots: Table, n: NodeId, node: Node) {
    && (forall j: Slot :: TestBit(node.bitmap, j) <==> slots[j] == Some(n))
    && node.numslots == |Owned(slots, n)|
  }

  ghost predicate Known(t: Table, nodes: map<NodeId, Node>) {
    forall j: Slot :: t[j].Some? ==> t[j].value in nodes
  }

  /** Table and bitmaps describe the same assignment, to known nodes only. */
  ghost predicate TablesAgree(slots: Table, nodes: map<NodeId, Node>) {
    Known(slots, nodes) && forall n | n in nodes :: NodeAgrees(slots, n, nodes[n])
  }

  lemma AgreesAt(slots: Table, n: NodeId, node: Node, j: Slot)
    requires NodeAgrees(slots, n, node)
    ensures TestBit(node.bitmap, j) <==> slots[j] == Some(n)
  {
  }

  lemma OwnedUpdate(slots: Table, j: Slot, n: NodeId)
    ensures slots[j] == None ==> Owned(slots[j := Some(n)], n) == Owned(slots, n) + {j}
                                 && |Owned(slots[j := Some(n)], n)| == |Owned(slots, n)| + 1
    ensures slots[j] == Some(n) ==> Owned(slots[j := None], n) == Owned(slots, n) - {j}
                                    && |Owned(slots[j := None], n)| == |Owned(slots, n)| - 1
  {
    if slots[j] == None {
      assert Owned(slots[j := Some(n)], n) == Owned(slots, n) + {j};
    }
    if slots[j] == Some(n) {
      assert j in Owned(slots, n);
      assert Owned(slots[j := None], n) == Owned(slots, n) - {j};
    }
  }

  lemma OwnedOther(slots: Table, j: Slot, o: Option<NodeId>, n: NodeId)
    requires slots[j] != Some(n) && o != Some(n)
    ensures Owned(slots[j := o], n) == Owned(slots, n)
  {
  }

  /** The known nodes with their config epochs: what slot changes leave alone. */
  ghost function EpochsOf(nodes: map<NodeId, Node>): (e: map<NodeId, nat>)
    ensures e.Keys == nodes.Keys
  {
    map n | n in nodes :: nodes[n].configEpoch
  }

  // ---- tables changed from slot 0 upwards ----

  /** The first j slots as in goal, the others as in was. */
  ghost function Splice(goal: Table, was: Table, j: nat): Table
    requires j <= 16384
  {
    goal[..j] + was[j..]
  }

  lemma SpliceStep(goal: Table, was: Table, j: Slot)
    ensures Splice(goal, was, j)[j] == was[j]
    ensures Splice(goal, was, j)[j := goal[j]] == Splice(goal, was, j + 1)
  {
  }

  lemma SpliceEnds(goal: Table, was: Table)
    ensures Splice(goal, was, 0) == was && Splice(goal, was, 16384) == goal
  {
  }

  ghost function WithoutNode(t: Table, n: NodeId): Table {
    seq(16384, (j: nat) requires j < 16384 => Without(t[j], n))
  }

  // ---- claims ----

  /** Whether a claim of `sender` under `epoch` takes slot j: it is not importing, and it is free or bound
      under an older config epoch. */
  ghost predicate Rebinds(slots: Table, importing: Table, epochs: map<NodeId, nat>, sender: NodeId, epoch: nat,
                          claim: Bitmap, j: Slot)
  {
    && TestBit(claim, j) && slots[j] != Some(sender) && importing[j].None?
    && (slots[j].None? || (slots[j].value in epochs && epochs[slots[j].value] < epoch))
  }

  /** The table after a claim. */
  ghost function Claimed(slots: Table, importing: Table, epochs: map<NodeId, nat>, sender: NodeId, epoch: nat,
                         claim: Bitmap): Table
  {
    seq(16384, (j: nat) requires j < 16384 =>
      if Rebinds(slots, importing, epochs, sender, epoch, claim, j) then Some(sender) else slots[j])
  }

  class ClusterState<K(!new, ==), V> {
    const me: NodeId
    const slotOf: K -> Slot
    var master: Option<NodeId>
    var nodes: map<NodeId, Node>
    var slots: Table
    var migrating: Table
    var importing: Table
    var db: map<K, V>
    var up: bool
    var currentEpoch: nat

    /** The invariant of every reachable state. */
    ghost predicate Agree()
      reads this
    {
      && me in nodes && TablesAgree(slots, nodes)
      && Known(migrating, nodes) && Known(importing, nodes)
      && (master.Some? ==> master.value in nodes && master.value != me)
    }

    ghost function Routing(): View<K, V>
      reads this
    {
      View(me, master, nodes.Keys, slotOf, slots, migrating, importing, db, up)
    }

    /** A new node: it knows only itself and owns nothing. */
    constructor (me: NodeId, slotOf: K -> Slot)
      ensures Agree() && this.me == me && nodes.Keys == {me} && slots == importing == migrating == NoOwner()
      ensures master == None && db == map[] && currentEpoch == 0
    {
      this.me, this.slotOf := me, slotOf;
      master, slots, migrating, importing := None, NoOwner(), NoOwner(), NoOwner();
      nodes := map[me := Node(NoBits(), 0, 0)];
      db, up, currentEpoch := map[], false, 0;
      new;
      assert Owned(slots, me) == {};
      forall j: Slot ensures !TestBit(nodes[me].bitmap, j) { NoBitSet(j); }
    }

    /** `createClusterNode` and `clusterAddNode`: a node we hear of for the first time owns nothing. */
    method AddNode(n: NodeId) returns (ok: bool)
      requires Agree()
      modifies this`nodes
      ensures Agree()
      ensures ok <==> n !in old(nodes)
      ensures EpochsOf(nodes) == if ok then old(EpochsOf(nodes))[n := 0] else old(EpochsOf(nodes))
    {
      hide TablesAgree, EpochsOf, NoBits;
      if n in nodes { return false; }
      NewNodeAgrees(slots, nodes, n);
      nodes := nodes[n := Node(NoBits(), 0, 0)];
      return true;
    }

    /** `clusterAddSlot`: C_ERR if the slot is bound. */
    method AddSlot(n: NodeId, slot: Slot) returns (ok: bool)
      requires Agree() && n in nodes
      modifies this`slots, this`nodes
      ensures Agree()
      ensures ok <==> old(slots[slot]).None?
      ensures slots == if ok then old(slots)[slot := Some(n)] else old(slots)
      ensures EpochsOf(nodes) == old(EpochsOf(nodes))
    {
      hide TablesAgree, EpochsOf, TestBit, SetBit;
      if slots[slot].Some? { return false; }
      var node := nodes[n];
      var was := TestBit(node.bitmap, slot);
      BindAgrees(slots, nodes, slot, n);
      var count := if was then node.numslots else node.numslots + 1;
      nodes := nodes[n := Node(SetBit(node.bitmap, slot), count, node.configEpoch)];
      slots := slots[slot := Some(n)];
      return true;
    }

    /** `clusterDelSlot`: C_ERR if the slot is free. The bit of the owner is always set. */
    method DelSlot(slot: Slot) returns (ok: bool)
      requires Agree()
      modifies this`slots, this`nodes
      ensures Agree()
      ensures ok <==> old(slots[slot]).Some?
      ensures slots == old(slots)[slot := None]
      ensures EpochsOf(nodes) == old(EpochsOf(nodes))
    {
      hide TablesAgree, EpochsOf, TestBit, ClearBit;
      if slots[slot].None? {
        assert slots == slots[slot := None];
        return false;
      }
      var n := slots[slot].value;
      UnbindAgrees(slots, nodes, slot, n);
      var node := nodes[n];
      var was := TestBit(node.bitmap, slot);
      assert was;
      nodes := nodes[n := Node(ClearBit(node.bitmap, slot), node.numslots - 1, node.configEpoch)];
      slots := slots[slot := None];
      return true;
    }

    /** A bound slot is bound to a known node, whose bit for it is set. */
    lemma OwnerFacts(j: Slot)
      requires Agree()
      ensures slots[j].Some? ==> slots[j].value in nodes
      ensures forall n | n in nodes :: TestBit(nodes[n].bitmap, j) <==> slots[j] == Some(n)
    {
      forall n | n in nodes ensures TestBit(nodes[n].bitmap, j) <==> slots[j] == Some(n) {
        AgreesAt(slots, n, nodes[n], j);
      }
    }

    /** Unbind slot j if it is bound to n, as the bitmap of n tells. */
    method DropAt(n: NodeId, j: Slot)
      requires Agree() && n in nodes
      modifies this`slots, this`nodes
      ensures Agree() && EpochsOf(nodes) == old(EpochsOf(nodes)) && slots == old(slots)[j := Without(old(slots)[j], n)]
    {
      OwnerFacts(j);
      hide Agree, EpochsOf, TestBit;
      if TestBit(nodes[n].bitmap, j) { var _ := DelSlot(j); }
      assert slots == old(slots)[j := Without(old(slots)[j], n)];
    }

    /** `clusterDelNodeSlots`: unbind every slot of n. */
    method DelNodeSlots(n: NodeId)
      requires Agree() && n in nodes
      modifies this`slots, this`nodes
      ensures Agree() && slots == WithoutNode(old(slots), n)
      ensures EpochsOf(nodes) == old(EpochsOf(nodes)) && n in nodes && nodes[n].numslots == 0
    {
      hide EpochsOf, Agree;
      ghost var was, goal := slots, WithoutNode(slots, n);
      SpliceEnds(goal, was);
      hide Splice;
      assert n in EpochsOf(nodes);
      for j := 0 to 16384
        invariant Agree() && slots == Splice(goal, was, j)
        invariant EpochsOf(nodes) == old(EpochsOf(nodes)) && n in EpochsOf(nodes)
      {
        SpliceStep(goal, was, j);
        DropAt(n, j);
      }
      NoSlots(n);
    }

    lemma NoSlots(n: NodeId)
      requires Agree() && n in nodes && forall j: Slot :: slots[j] != Some(n)
      ensures nodes[n].numslots == 0
    {
      NoneOwned(slots, nodes, n);
    }

    /** One round of the loop of `clusterDelNode`. */
    method ForgetAt(n: NodeId, j: Slot)
      requires Agree()
      modifies this`slots, this`nodes, this`migrating, this`importing
      ensures Agree() && EpochsOf(nodes) == old(EpochsOf(nodes))
      ensures slots == old(slots)[j := Without(old(slots)[j], n)]
      ensures migrating == old(migrating)[j := Without(old(migrating)[j], n)]
      ensures importing == old(importing)[j := Without(old(importing)[j], n)]
    {
      hide EpochsOf, TablesAgree;
      if importing[j] == Some(n) { importing := importing[j := None]; }
      if migrating[j] == Some(n) { migrating := migrating[j := None]; }
      if slots[j] == Some(n) { var _ := DelSlot(j); }
    }

    /** The loop of `clusterDelNode`. */
    method CloseSlotsOf(n: NodeId)
      requires Agree()
      modifies this`slots, this`nodes, this`migrating, this`importing
      ensures Agree() && EpochsOf(nodes) == old(EpochsOf(nodes))
      ensures slots == WithoutNode(old(slots), n)
      ensures migrating == WithoutNode(old(migrating), n) && importing == WithoutNode(old(importing), n)
    {
      hide EpochsOf, Agree;
      ghost var s0, m0, i0 := slots, migrating, importing;
      ghost var s1, m1, i1 := WithoutNode(s0, n), WithoutNode(m0, n), WithoutNode(i0, n);
      SpliceEnds(s1, s0);
      SpliceEnds(m1, m0);
      SpliceEnds(i1, i0);
      hide Splice;
      for j := 0 to 16384
        invariant Agree() && EpochsOf(nodes) == old(EpochsOf(nodes))
        invariant slots == Splice(s1, s0, j) && migrating == Splice(m1, m0, j) && importing == Splice(i1, i0, j)
      {
        SpliceStep(s1, s0, j);
        SpliceStep(m1, m0, j);
        SpliceStep(i1, i0, j);
        ForgetAt(n, j);
      }
    }

    /** `clusterDelNode`: unbind its slots, close what it was migrating or importing, and forget it. */
    method DelNode(n: NodeId)
      requires Agree() && n in nodes && n != me && master != Some(n)
      modifies this`slots, this`nodes, this`migrating, this`importing
      ensures Agree() && nodes.Keys == old(nodes.Keys) - {n}
      ensures slots == WithoutNode(old(slots), n)
      ensures migrating == WithoutNode(old(migrating), n) && importing == WithoutNode(old(importing), n)
    {
      hide EpochsOf, Known, TablesAgree, WithoutNode;
      CloseSlotsOf(n);
      ForgetAgrees(old(slots), nodes, n);
      KnownWithout(old(migrating), nodes, n);
      KnownWithout(old(importing), nodes, n);
      nodes := nodes - {n};
    }

    /** One round of the loop of `clusterUpdateSlotsConfigWith`. */
    method ClaimAt(sender: NodeId, epoch: nat, claim: Bitmap, j: Slot)
      requires Agree() && sender in nodes
      modifies this`slots, this`nodes
      ensures Agree() && EpochsOf(nodes) == old(EpochsOf(nodes))
      ensures slots == old(slots)[j := if Rebinds(old(slots), importing, old(EpochsOf(nodes)), sender, epoch, claim, j)
                                       then Some(sender) else old(slots)[j]]
    {
      OwnerFacts(j);
      hide Agree, TestBit;
      var take := TestBit(claim, j) && slots[j] != Some(sender) && importing[j].None?
                  && (slots[j].None? || nodes[slots[j].value].configEpoch < epoch);
      assert take == Rebinds(slots, importing, EpochsOf(nodes), sender, epoch, claim, j);
      hide Rebinds, EpochsOf;
      if take {
        Reassign(sender, j);
      }
    }

    /** That round with its bookkeeping: a slot of `loser` taken, a slot of ours taken with keys in it. */
    method ClaimStep(sender: NodeId, epoch: nat, claim: Bitmap, loser: NodeId, j: Slot, taken: bool, dirty: set<Slot>)
      returns (taken': bool, dirty': set<Slot>)
      requires Agree() && sender in nodes
      modifies this`slots, this`nodes
      ensures Agree() && EpochsOf(nodes) == old(EpochsOf(nodes))
      ensures slots == old(slots)[j := if Rebinds(old(slots), importing, old(EpochsOf(nodes)), sender, epoch, claim, j)
                                       then Some(sender) else old(slots)[j]]
      ensures taken' <==> taken || (old(slots)[j] == Some(loser) && slots[j] != Some(loser))
      ensures dirty' == dirty + (if old(slots)[j] == Some(me) && slots[j] != Some(me) && HasKeys(slotOf, db, j)
                                 then {j} else {})
    {
      hide Agree, EpochsOf, Rebinds, HasKeys;
      var owner := slots[j];
      ClaimAt(sender, epoch, claim, j);
      taken' := taken || (owner == Some(loser) && slots[j] != Some(loser));
      dirty' := dirty;
      if owner == Some(me) && slots[j] != Some(me) && HasKeys(slotOf, db, j) { dirty' := dirty + {j}; }
    }

    /** The slot loop of `clusterUpdateSlotsConfigWith`. Reports whether a slot of `loser` was taken, and
        which slots of ours were taken while they still held keys. */
    method Rebind(sender: NodeId, epoch: nat, claim: Bitmap, loser: NodeId) returns (taken: bool, dirty: set<Slot>)
      requires Agree() && sender in nodes
      modifies this`slots, this`nodes
      ensures Agree() && EpochsOf(nodes) == old(EpochsOf(nodes))
      ensures slots == Claimed(old(slots), importing, old(EpochsOf(nodes)), sender, epoch, claim)
      ensures taken <==> Lost(old(slots), slots, loser)
      ensures dirty == DirtySlots(old(slots), slots, me, slotOf, db, 16384)
    {
      taken, dirty := false, {};
      ghost var was, epochs, goal := slots, EpochsOf(nodes),
          Claimed(slots, importing, EpochsOf(nodes), sender, epoch, claim);
      SpliceEnds(goal, was);
      hide Agree, Splice, EpochsOf, TestBit, Rebinds, HasKeys;
      for j := 0 to 16384
        invariant Agree() && slots == Splice(goal, was, j) && EpochsOf(nodes) == epochs
        invariant taken <==> LostSome(was, goal, loser, j)
        invariant dirty == DirtySlots(was, goal, me, slotOf, db, j)
      {
        SpliceStep(goal, was, j);
        DirtyStep(was, goal, me, slotOf, db, j);
        RebindsSame(was, slots, importing, epochs, sender, epoch, claim, j);
        hide DirtySlots;
        taken, dirty := ClaimStep(sender, epoch, claim, loser, j, taken, dirty);
      }
      LostSomeMeans(was, goal, loser, 16384);
    }

    /** What a claim of another node does: claimed slots are rebound; if our master (or we, a master) lost the
        last slot to the sender, we replicate the sender, which the code asserts to happen only while we own
        nothing; otherwise the keys of slots we lost are dropped. */
    twostate predicate ClaimTaken(sender: NodeId, epoch: nat, claim: Bitmap, fires: bool)
      reads this
    {
      && slots == Claimed(old(slots), old(importing), old(EpochsOf(nodes)), sender, epoch, claim)
      && fires == Asserts(old(slots), slots, old(master), me)
      && if fires || !Orphaned(old(slots), slots, old(master), me)
         then master == old(master) && migrating == old(migrating) && importing == old(importing)
              && db == if fires then old(db)
                       else DropSlots(old(db), slotOf, DirtySlots(old(slots), slots, me, slotOf, old(db), 16384))
         else master == Some(sender) && db == old(db)
    }

    /** `clusterUpdateSlotsConfigWith`: our own claims are ignored. Returns whether an assertion fires. */
    method UpdateSlotsConfigWith(sender: NodeId, epoch: nat, claim: Bitmap) returns (fires: bool)
      requires Agree() && sender in nodes
      modifies this`slots, this`nodes, this`migrating, this`importing, this`master, this`db
      ensures Agree() && EpochsOf(nodes) == old(EpochsOf(nodes))
      ensures if sender == me then unchanged(this) && !fires else ClaimTaken(sender, epoch, claim, fires)
    {
      fires := false;
      if sender != me { fires := TakeClaim(sender, epoch, claim); }
    }

    method TakeClaim(sender: NodeId, epoch: nat, claim: Bitmap) returns (fires: bool)
      requires Agree() && sender in nodes && sender != me
      modifies this`slots, this`nodes, this`migrating, this`importing, this`master, this`db
      ensures Agree() && EpochsOf(nodes) == old(EpochsOf(nodes)) && ClaimTaken(sender, epoch, claim, fires)
    {
      hide Claimed, LostSome, DirtySlots, Owned, EpochsOf, DropSlots, Known, TablesAgree;
      var cur := if master.None? then me else master.value;
      var taken, dirty := Rebind(sender, epoch, claim, cur);
      hide Agree;
      fires := Settle(sender, cur, taken, dirty);
    }

    /** The part of `clusterProcessPacket` that takes a master's announced epoch and slots. The bitmap is only
        compared when it differs from the one we have for the sender. */
    method ProcessHeader(sender: NodeId, epoch: nat, claim: Bitmap) returns (fires: bool)
      requires Agree() && sender in nodes && sender != me
      modifies this`slots, this`nodes, this`migrating, this`importing, this`master, this`db
      ensures Agree() && EpochsOf(nodes) == Raised(old(EpochsOf(nodes)), sender, epoch)
      ensures slots == Claimed(old(slots), old(importing), EpochsOf(nodes), sender, epoch, claim)
      ensures fires == Asserts(old(slots), slots, old(master), me)
    {
      hide TablesAgree, Claimed, EpochsOf, TestBit, Raised, Asserts;
      RaiseEpoch(sender, epoch);
      if nodes[sender].bitmap != claim {
        fires := UpdateSlotsConfigWith(sender, epoch, claim);
      } else {
        fires := false;
        SameClaim(slots, importing, nodes, sender, epoch);
        NothingLost(slots, master, me);
      }
    }

    /** The UPDATE message: the configuration of n as some other node knows it, ignored unless newer. */
    method ProcessUpdate(n: NodeId, epoch: nat, claim: Bitmap) returns (fires: bool)
      requires Agree() && n in nodes
      modifies this`slots, this`nodes, this`migrating, this`importing, this`master, this`db
      ensures Agree() && fires == Asserts(old(slots), slots, old(master), me)
      ensures if old(nodes)[n].configEpoch >= epoch then unchanged(this)
              else EpochsOf(nodes) == Raised(old(EpochsOf(nodes)), n, epoch)
                   && slots == if n == me then old(slots)
                       else Claimed(old(slots), old(importing), EpochsOf(nodes), n, epoch, claim)
    {
      hide TablesAgree, Claimed, EpochsOf, TestBit, Raised, Asserts;
      NothingLost(slots, master, me);
      if nodes[n].configEpoch >= epoch { return false; }
      RaiseEpoch(n, epoch);
      fires := UpdateSlotsConfigWith(n, epoch, claim);
    }

    /** A node's config epoch is only ever raised. */
    method RaiseEpoch(n: NodeId, epoch: nat)
      requires Agree() && n in nodes
      modifies this`nodes
      ensures Agree() && EpochsOf(nodes) == Raised(old(EpochsOf(nodes)), n, epoch)
      ensures nodes.Keys == old(nodes.Keys) && nodes[n].bitmap == old(nodes)[n].bitmap
      ensures nodes[me].numslots == old(nodes)[me].numslots
    {
      hide TablesAgree, EpochsOf;
      EpochAt(nodes, n);
      if epoch > nodes[n].configEpoch {
        EpochAgrees(slots, nodes, n, epoch);
        nodes := nodes[n := nodes[n].(configEpoch := epoch)];
      }
    }

    /** `clusterSetMaster`: the code asserts that we own no slots. A master closes its open slots first. */
    method SetMaster(n: NodeId) returns (fires: bool)
      requires Agree() && n in nodes && n != me
      modifies this`migrating, this`importing, this`master
      ensures Agree() && fires == (Owned(slots, me) != {})
      ensures master == if fires then old(master) else Some(n)
      ensures migrating == if fires || old(master).Some? then old(migrating) else NoOwner()
      ensures importing == if fires || old(master).Some? then old(importing) else NoOwner()
    {
      OwnerCount(slots, nodes, me);
      if nodes[me].numslots != 0 { return true; }
      if master.None? { migrating, importing := NoOwner(), NoOwner(); }
      master := Some(n);
      return false;
    }

    /** CLUSTER REPLICATE: only a master is asked to be empty. `replica` says whether n is itself a replica. */
    method Replicate(n: NodeId, replica: bool) returns (ok: bool, fires: bool)
      requires Agree()
      modifies this`migrating, this`importing, this`master
      ensures Agree()
      ensures ok <==> n in nodes && n != me && !replica && (old(master).None? ==> Owned(slots, me) == {} && db == map[])
      ensures fires <==> ok && Owned(slots, me) != {}
      ensures master == if ok && !fires then Some(n) else old(master)
      ensures migrating == if ok && !fires && old(master).None? then NoOwner() else old(migrating)
      ensures importing == if ok && !fires && old(master).None? then NoOwner() else old(importing)
    {
      OwnerCount(slots, nodes, me);
      if n !in nodes || n == me || replica { return false, false; }
      if master.None? && (nodes[me].numslots != 0 || |db| != 0) {
        assert db == map[] ==> |db| == 0;
        return false, false;
      }
      fires := SetMaster(n);
      return true, fires;
    }

    /** The end of `clusterUpdateSlotsConfigWith`. */
    method Settle(sender: NodeId, cur: NodeId, taken: bool, dirty: set<Slot>) returns (fires: bool)
      requires Agree() && sender in nodes && sender != me && cur in nodes
      modifies this`migrating, this`importing, this`master, this`db
      ensures Agree() && fires == (taken && Owned(slots, cur) == {} && Owned(slots, me) != {})
      ensures if fires then master == old(master) && migrating == old(migrating) && importing == old(importing)
          && db == old(db)
              else if taken && Owned(slots, cur) == {} then master == Some(sender) && db == old(db)
              else master == old(master) && migrating == old(migrating) && importing == old(importing)
                   && db == DropSlots(old(db), slotOf, dirty)
    {
      OwnerCount(slots, nodes, cur);
      hide Agree, Owned;
      fires := false;
      if taken && nodes[cur].numslots == 0 {
        fires := SetMaster(sender);
      } else {
        db := DropSlots(db, slotOf, dirty);
      }
    }

    /** Bind slot j to n, whoever had it: `clusterDelSlot` then `clusterAddSlot`. */
    method Reassign(n: NodeId, j: Slot)
      requires Agree() && n in nodes
      modifies this`slots, this`nodes
      ensures Agree() && EpochsOf(nodes) == old(EpochsOf(nodes)) && slots == old(slots)[j := Some(n)]
    {
      hide Agree, EpochsOf;
      var _ := DelSlot(j);
      var ok := AddSlot(n, j);
      assert ok;
    }

    /** Move slot j from one node to another, if it is bound to the first. */
    method HandOver(from: NodeId, heir: NodeId, j: Slot)
      requires Agree() && from in nodes && heir in nodes
      modifies this`slots, this`nodes
      ensures Agree() && EpochsOf(nodes) == old(EpochsOf(nodes))
      ensures slots == old(slots)[j := if old(slots)[j] == Some(from) then Some(heir) else old(slots)[j]]
    {
      OwnerFacts(j);
      hide Agree, EpochsOf, TestBit;
      if TestBit(nodes[from].bitmap, j) {
        Reassign(heir, j);
      }
    }

    /** `clusterFailoverReplaceYourMaster`: turn into a master and take over every slot of the old one. */
    method ReplaceYourMaster()
      requires Agree()
      modifies this`slots, this`nodes, this`master
      ensures Agree() && EpochsOf(nodes) == old(EpochsOf(nodes)) && master == None
      ensures slots == if old(master).None? then old(slots) else Inherited(old(slots), old(master).value, me)
    {
      if master.None? { return; }
      var from := master.value;
      master := None;
      assert Agree() && from in nodes && me in nodes;
      hide EpochsOf, Agree;
      ghost var was, goal := slots, Inherited(slots, from, me);
      SpliceEnds(goal, was);
      hide Splice;
      assert from in EpochsOf(nodes) && me in EpochsOf(nodes);
      for j := 0 to 16384
        invariant Agree() && slots == Splice(goal, was, j) && master == None
        invariant EpochsOf(nodes) == old(EpochsOf(nodes)) && from in EpochsOf(nodes) && me in EpochsOf(nodes)
      {
        SpliceStep(goal, was, j);
        HandOver(from, me, j);
      }
    }

    /** CLUSTER ADDSLOTS: all or nothing; refused when a slot is bound or named twice. */
    method AddSlots(args: seq<Slot>) returns (ok: bool)
      requires Agree()
      modifies this`slots, this`nodes, this`importing
      ensures Agree() && EpochsOf(nodes) == old(EpochsOf(nodes))
      ensures ok <==> NoRepeats(args) && forall j | j in args :: old(slots)[j].None?
      ensures slots == if ok then Assigned(old(slots), args, Some(me)) else old(slots)
      ensures importing == if ok then Assigned(old(importing), args, None) else old(importing)
    {
      ok := CheckSlots(args, false);
      if ok { ChangeSlots(args, false); }
    }

    /** CLUSTER DELSLOTS: all or nothing; refused when a slot is free or named twice. */
    method DelSlots(args: seq<Slot>) returns (ok: bool)
      requires Agree()
      modifies this`slots, this`nodes, this`importing
      ensures Agree() && EpochsOf(nodes) == old(EpochsOf(nodes))
      ensures ok <==> NoRepeats(args) && forall j | j in args :: old(slots)[j].Some?
      ensures slots == if ok then Assigned(old(slots), args, None) else old(slots)
      ensures importing == if ok then Assigned(old(importing), args, None) else old(importing)
    {
      ok := CheckSlots(args, true);
      if ok { ChangeSlots(args, true); }
    }

    /** The first loop of ADDSLOTS and DELSLOTS: validate every argument. */
    method CheckSlots(args: seq<Slot>, del: bool) returns (ok: bool)
      ensures ok <==> NoRepeats(args) && forall j | j in args :: slots[j].Some? == del
    {
      var seen: set<Slot> := {};
      for i := 0 to |args|
        invariant seen == set j | j in args[..i]
        invariant NoRepeats(args[..i]) && forall j | j in args[..i] :: slots[j].Some? == del
      {
        assert args[..i + 1] == args[..i] + [args[i]];
        if slots[args[i]].Some? != del || args[i] in seen {
          assert args[i] in args;
          if args[i] in seen { var x: nat :| x < i && args[x] == args[i]; }
          return false;
        }
        seen := seen + {args[i]};
      }
      assert args[..|args|] == args;
      return true;
    }

    /** The second loop of ADDSLOTS and DELSLOTS: apply, slot by slot. */
    method ChangeSlots(args: seq<Slot>, del: bool)
      requires Agree() && forall j | j in args :: slots[j].Some? == del
      modifies this`slots, this`nodes, this`importing
      ensures Agree() && EpochsOf(nodes) == old(EpochsOf(nodes))
      ensures slots == Assigned(old(slots), args, if del then None else Some(me))
      ensures importing == Assigned(old(importing), args, None)
    {
      ghost var s0, i0 := slots, importing;
      ghost var s1, i1 := Assigned(s0, args, if del then None else Some(me)), Assigned(i0, args, None);
      SpliceEnds(s1, s0);
      SpliceEnds(i1, i0);
      hide Splice, EpochsOf, TablesAgree;
      for j := 0 to 16384
        invariant Agree() && EpochsOf(nodes) == old(EpochsOf(nodes))
        invariant slots == Splice(s1, s0, j) && importing == Splice(i1, i0, j)
      {
        SpliceStep(s1, s0, j);
        SpliceStep(i1, i0, j);
        if j in args { ChangeOne(j, del); }
      }
    }

    method ChangeOne(j: Slot, del: bool)
      requires Agree() && slots[j].Some? == del
      modifies this`slots, this`nodes, this`importing
      ensures Agree() && EpochsOf(nodes) == old(EpochsOf(nodes))
      ensures slots == old(slots)[j := if del then None else Some(me)] && importing == old(importing)[j := None]
    {
      hide EpochsOf, TablesAgree;
      importing := importing[j := None];
      var ok;
      if del { ok := DelSlot(j); } else { ok := AddSlot(me, j); }
      assert ok;
    }

    /** CLUSTER SETSLOT s MIGRATING n. */
    method SetSlotMigrating(s: Slot, n: NodeId) returns (ok: bool)
      requires Agree()
      modifies this`migrating
      ensures Agree() && (Routing(), ok) == SetMigrating(old(Routing()), s, n)
    {
      if master.Some? || slots[s] != Some(me) || n !in nodes { return false; }
      migrating := migrating[s := Some(n)];
      return true;
    }

    /** CLUSTER SETSLOT s IMPORTING n. */
    method SetSlotImporting(s: Slot, n: NodeId) returns (ok: bool)
      requires Agree()
      modifies this`importing
      ensures Agree() && (Routing(), ok) == SetImporting(old(Routing()), s, n)
    {
      if master.Some? || slots[s] == Some(me) || n !in nodes { return false; }
      importing := importing[s := Some(n)];
      return true;
    }

    /** CLUSTER SETSLOT s STABLE. */
    method SetSlotStable(s: Slot) returns (ok: bool)
      requires Agree()
      modifies this`migrating, this`importing
      ensures Agree() && (Routing(), ok) == SetStable(old(Routing()), s)
    {
      if master.Some? { return false; }
      migrating, importing := migrating[s := None], importing[s := None];
      return true;
    }

    /** `clusterGetMaxEpoch`: the greatest epoch known here. */
    method GetMaxEpoch() returns (max: nat)
      ensures currentEpoch <= max && forall n | n in nodes :: nodes[n].configEpoch <= max
      ensures max == currentEpoch || exists n | n in nodes :: nodes[n].configEpoch == max
    {
      max := 0;
      var left := nodes.Keys;
      while left != {}
        invariant left <= nodes.Keys && forall n | n in nodes && n !in left :: nodes[n].configEpoch <= max
        invariant max == 0 || exists n | n in nodes :: nodes[n].configEpoch == max
        decreases |left|
      {
        var n :| n in left;
        left := left - {n};
        if nodes[n].configEpoch > max { max := nodes[n].configEpoch; }
      }
      if max < currentEpoch { max := currentEpoch; }
    }

    /** `clusterBumpConfigEpochWithoutConsensus`: take a new config epoch unless ours is set and already the
        greatest known. It beats every epoch known here when none is ahead of the current epoch. */
    method BumpConfigEpoch() returns (ok: bool)
      requires Agree()
      modifies this`nodes, this`currentEpoch
      ensures Agree()
      ensures ok <==> ShouldBump(old(EpochsOf(nodes)), me, old(currentEpoch))
      ensures currentEpoch == old(currentEpoch) + if ok then 1 else 0
      ensures EpochsOf(nodes) == if ok then old(EpochsOf(nodes))[me := currentEpoch] else old(EpochsOf(nodes))
    {
      var max := GetMaxEpoch();
      if nodes[me].configEpoch != 0 && nodes[me].configEpoch == max { return false; }
      currentEpoch := currentEpoch + 1;
      EpochAgrees(slots, nodes, me, currentEpoch);
      nodes := nodes[me := nodes[me].(configEpoch := currentEpoch)];
      return true;
    }

    /** CLUSTER SETSLOT s NODE n. Claiming an imported slot takes a new config epoch. */
    method SetSlotNode(s: Slot, n: NodeId) returns (ok: bool)
      requires Agree()
      modifies this`slots, this`nodes, this`migrating, this`importing, this`currentEpoch
      ensures Agree() && (Routing(), ok) == SetNode(old(Routing()), s, n)
      ensures var bump := ok && n == me && old(importing)[s].Some?
          && ShouldBump(old(EpochsOf(nodes)), me, old(currentEpoch));
              && currentEpoch == old(currentEpoch) + (if bump then 1 else 0)
              && EpochsOf(nodes) == if bump then old(EpochsOf(nodes))[me := currentEpoch] else old(EpochsOf(nodes))
    {
      hide TablesAgree, EpochsOf, ShouldBump, HasKeys;
      if master.Some? || n !in nodes { return false; }
      var holds := HasKeys(slotOf, db, s);
      HoldsKeys(Routing(), s);
      hide Holds;
      if slots[s] == Some(me) && n != me && holds { return false; }
      Entrust(s, n, holds);
      return true;
    }

    /** The accepted SETSLOT s NODE n. */
    method Entrust(s: Slot, n: NodeId, holds: bool)
      requires Agree() && n in nodes
      modifies this`slots, this`nodes, this`migrating, this`importing, this`currentEpoch
      ensures Agree() && nodes.Keys == old(nodes.Keys) && slots == old(slots)[s := Some(n)]
      ensures migrating == if holds then old(migrating) else old(migrating)[s := None]
      ensures importing == if n == me then old(importing)[s := None] else old(importing)
      ensures var bump := n == me && old(importing)[s].Some? && ShouldBump(old(EpochsOf(nodes)), me, old(currentEpoch));
              && currentEpoch == old(currentEpoch) + (if bump then 1 else 0)
              && EpochsOf(nodes) == if bump then old(EpochsOf(nodes))[me := currentEpoch] else old(EpochsOf(nodes))
    {
      hide TablesAgree, EpochsOf, ShouldBump;
      if !holds { migrating := migrating[s := None]; }
      hide Known;
      if n == me { CloseImport(s); }
      hide Agree;
      Reassign(n, s);
      assert EpochsOf(nodes).Keys == nodes.Keys;
    }

    /** We stop importing a slot because we now own it. */
    method CloseImport(s: Slot)
      requires Agree()
      modifies this`nodes, this`importing, this`currentEpoch
      ensures Agree() && importing == old(importing)[s := None] && nodes.Keys == old(nodes.Keys)
      ensures var bump := old(importing)[s].Some? && ShouldBump(old(EpochsOf(nodes)), me, old(currentEpoch));
              && currentEpoch == old(currentEpoch) + (if bump then 1 else 0)
              && EpochsOf(nodes) == if bump then old(EpochsOf(nodes))[me := currentEpoch] else old(EpochsOf(nodes))
    {
      hide TablesAgree, EpochsOf, ShouldBump;
      if importing[s].Some? {
        var _ := BumpConfigEpoch();
        importing := importing[s := None];
      }
      assert importing == old(importing)[s := None];
      assert EpochsOf(nodes).Keys == nodes.Keys;
    }
  }

  ghost function Raised(epochs: map<NodeId, nat>, n: NodeId, epoch: nat): map<NodeId, nat>
    requires n in epochs
  {
    if epoch > epochs[n] then epochs[n := epoch] else epochs
  }

  /** Announcing the slots we already have for a node changes nothing. */
  lemma SameClaim(slots: Table, importing: Table, nodes: map<NodeId, Node>, n: NodeId, epoch: nat)
    requires TablesAgree(slots, nodes) && n in nodes
    ensures Claimed(slots, importing, EpochsOf(nodes), n, epoch, nodes[n].bitmap) == slots
  {
    assert NodeAgrees(slots, n, nodes[n]);
    hide TestBit, Known;
  }

  /** Our config epoch is unset, or some epoch known here is greater. */
  ghost predicate ShouldBump(epochs: map<NodeId, nat>, me: NodeId, current: nat)
    requires me in epochs
  {
    epochs[me] == 0 || epochs[me] < current || exists n | n in epochs :: epochs[n] > epochs[me]
  }

  lemma EpochAt(nodes: map<NodeId, Node>, n: NodeId)
    requires n in nodes
    ensures EpochsOf(nodes)[n] == nodes[n].configEpoch
  {
  }

  lemma EpochAgrees(slots: Table, nodes: map<NodeId, Node>, n: NodeId, e: nat)
    requires TablesAgree(slots, nodes) && n in nodes
    ensures TablesAgree(slots, nodes[n := nodes[n].(configEpoch := e)])
    ensures EpochsOf(nodes[n := nodes[n].(configEpoch := e)]) == EpochsOf(nodes)[n := e]
  {
    hide TestBit, Owned;
    var node := nodes[n].(configEpoch := e);
    assert NodeAgrees(slots, n, nodes[n]);
    assert NodeAgrees(slots, n, node);
    hide NodeAgrees;
  }

  predicate NoRepeats(args: seq<Slot>) { forall i, j | 0 <= i < j < |args| :: args[i] != args[j] }

  ghost function Assigned(t: Table, args: seq<Slot>, o: Option<NodeId>): Table {
    seq(16384, (j: nat) requires j < 16384 => if j in args then o else t[j])
  }

  function DropSlots<K, V>(db: map<K, V>, slotOf: K -> Slot, dirty: set<Slot>): map<K, V> {
    map k | k in db && slotOf(k) !in dirty :: db[k]
  }

  ghost function Inherited(slots: Table, from: NodeId, heir: NodeId): Table {
    seq(16384, (j: nat) requires j < 16384 => if slots[j] == Some(from) then Some(heir) else slots[j])
  }

  lemma OwnerCount(slots: Table, nodes: map<NodeId, Node>, n: NodeId)
    requires TablesAgree(slots, nodes) && n in nodes
    ensures nodes[n].numslots == 0 <==> Owned(slots, n) == {}
  {
    assert NodeAgrees(slots, n, nodes[n]);
  }

  /** A claim of another node never gives us slots. */
  lemma ClaimedKeeps(slots: Table, importing: Table, epochs: map<NodeId, nat>, sender: NodeId, epoch: nat,
                     claim: Bitmap, n: NodeId)
    requires n != sender
    ensures Owned(Claimed(slots, importing, epochs, sender, epoch, claim), n) <= Owned(slots, n)
  {
  }

  /** Whether slot j is rebound depends only on its own entry. */
  lemma RebindsSame(was: Table, now: Table, importing: Table, epochs: map<NodeId, nat>,
                    sender: NodeId, epoch: nat, claim: Bitmap, j: Slot)
    requires now[j] == was[j]
    ensures Rebinds(now, importing, epochs, sender, epoch, claim, j)
        == Rebinds(was, importing, epochs, sender, epoch, claim, j)
  {
  }

  /** Some slot below j bound to n before is no longer. */
  ghost predicate LostSome(was: Table, now: Table, n: NodeId, j: nat)
    requires j <= 16384
  {
    j > 0 && (LostSome(was, now, n, j - 1) || (was[j - 1] == Some(n) && now[j - 1] != Some(n)))
  }

  lemma {:induction false} LostSomeMeans(was: Table, now: Table, n: NodeId, j: nat)
    requires j <= 16384
    ensures LostSome(was, now, n, j) <==> exists i: Slot :: i < j && was[i] == Some(n) && now[i] != Some(n)
  {
    if j > 0 { LostSomeMeans(was, now, n, j - 1); }
  }

  /** Some slot bound to n before is no longer. */
  ghost predicate Lost(was: Table, now: Table, n: NodeId) {
    exists i: Slot :: was[i] == Some(n) && now[i] != Some(n)
  }

  /** Our master (or we, a master) lost a slot and has none left. */
  ghost predicate Orphaned(was: Table, now: Table, master: Option<NodeId>, me: NodeId) {
    var cur := if master.None? then me else master.value;
    Lost(was, now, cur) && Owned(now, cur) == {}
  }

  /** Then we must not own a slot ourselves. */
  ghost predicate Asserts(was: Table, now: Table, master: Option<NodeId>, me: NodeId) {
    Orphaned(was, now, master, me) && Owned(now, me) != {}
  }

  lemma NothingLost(slots: Table, master: Option<NodeId>, me: NodeId)
    ensures !Asserts(slots, slots, master, me)
  {
  }

  /** It can only fail on a replica that owned slots before the claim. */
  lemma AssertsOnlyReplicas(was: Table, importing: Table, epochs: map<NodeId, nat>, sender: NodeId, epoch: nat,
                            claim: Bitmap, master: Option<NodeId>, me: NodeId)
    requires sender != me
    requires Asserts(was, Claimed(was, importing, epochs, sender, epoch, claim), master, me)
    ensures master.Some? && Owned(was, me) != {}
  {
    ClaimedKeeps(was, importing, epochs, sender, epoch, claim, me);
  }

  /** The slots below j that n lost while keys of theirs were still in the database. */
  ghost function DirtySlots<K(!new), V>(
    was: Table, now: Table, n: NodeId, slotOf: K -> Slot, db: map<K, V>, j: nat): set<Slot>
    requires j <= 16384
  {
    set i: Slot | i < j && was[i] == Some(n) && now[i] != Some(n) && HasKeys(slotOf, db, i)
  }

  predicate HasKeys<K(!new), V>(slotOf: K -> Slot, db: map<K, V>, i: Slot) {
    exists k | k in db :: slotOf(k) == i
  }

  lemma HoldsKeys<K(!new), V>(v: View<K, V>, s: Slot)
    ensures HasKeys(v.slotOf, v.db, s) == Holds(v, s)
  {
  }

  lemma DirtyStep<K(!new), V>(was: Table, now: Table, n: NodeId, slotOf: K -> Slot, db: map<K, V>, j: Slot)
    ensures DirtySlots(was, now, n, slotOf, db, j + 1) ==
            DirtySlots(was, now, n, slotOf, db, j) +
            if was[j] == Some(n) && now[j] != Some(n) && HasKeys(slotOf, db, j) then {j} else {}
  {
  }

  function Without(o: Option<NodeId>, n: NodeId): Option<NodeId> { if o == Some(n) then None else o }

  function NoOwner(): Table { seq(16384, (i: nat) => None) }

  function NoBits(): Bitmap { seq(2048, (i: nat) => 0) }

  lemma NoBitSet(j: Slot)
    ensures !TestBit(NoBits(), j)
  {
    assert NoBits()[j / 8] == 0;
    MaskZero(Mask(j % 8));
  }

  lemma MaskZero(m: bv8)
    ensures (0 as bv8) & m == 0
  {
  }

  lemma NoneOwned(slots: Table, nodes: map<NodeId, Node>, n: NodeId)
    requires TablesAgree(slots, nodes) && n in nodes && forall j: Slot :: slots[j] != Some(n)
    ensures nodes[n].numslots == 0
  {
    assert NodeAgrees(slots, n, nodes[n]);
    assert Owned(slots, n) == {};
  }

  lemma ForgetAgrees(slots: Table, nodes: map<NodeId, Node>, n: NodeId)
    requires TablesAgree(WithoutNode(slots, n), nodes)
    ensures TablesAgree(WithoutNode(slots, n), nodes - {n})
  {
    KnownWithout(slots, nodes, n);
  }

  lemma KnownWithout(t: Table, nodes: map<NodeId, Node>, n: NodeId)
    requires Known(WithoutNode(t, n), nodes)
    ensures Known(WithoutNode(t, n), nodes - {n})
  {
  }

  lemma NewNodeAgrees(slots: Table, nodes: map<NodeId, Node>, n: NodeId)
    requires TablesAgree(slots, nodes) && n !in nodes
    ensures TablesAgree(slots, nodes[n := Node(NoBits(), 0, 0)])
    ensures EpochsOf(nodes[n := Node(NoBits(), 0, 0)]) == EpochsOf(nodes)[n := 0]
  {
    hide TestBit, NoBits;
    assert Owned(slots, n) == {};
    forall j: Slot ensures !TestBit(NoBits(), j) { NoBitSet(j); }
    assert NodeAgrees(slots, n, Node(NoBits(), 0, 0));
    hide NodeAgrees;
  }

  lemma SameEpochs(nodes: map<NodeId, Node>, n: NodeId, node: Node)
    requires n in nodes && node.configEpoch == nodes[n].configEpoch
    ensures EpochsOf(nodes[n := node]) == EpochsOf(nodes)
  {
  }

  /** Binding a free slot in the table and in the bitmap of n. */
  lemma BindAgrees(slots: Table, nodes: map<NodeId, Node>, slot: Slot, n: NodeId)
    requires TablesAgree(slots, nodes) && n in nodes && slots[slot] == None
    ensures !TestBit(nodes[n].bitmap, slot)
    ensures var nodes' := nodes[n := Node(SetBit(nodes[n].bitmap, slot), nodes[n].numslots + 1, nodes[n].configEpoch)];
            TablesAgree(slots[slot := Some(n)], nodes') && EpochsOf(nodes') == EpochsOf(nodes)
  {
    var node := Node(SetBit(nodes[n].bitmap, slot), nodes[n].numslots + 1, nodes[n].configEpoch);
    var nodes' := nodes[n := node];
    SameEpochs(nodes, n, node);
    AgreesAt(slots, n, nodes[n], slot);
    hide TestBit, SetBit, EpochsOf;
    forall x | x in nodes' ensures NodeAgrees(slots[slot := Some(n)], x, nodes'[x]) {
      assert NodeAgrees(slots, x, nodes[x]);
      if x == n { BoundNode(slots, slot, n, nodes[n]); } else { OwnedOther(slots, slot, Some(n), x); }
    }
  }

  lemma BoundNode(slots: Table, slot: Slot, n: NodeId, node: Node)
    requires NodeAgrees(slots, n, node) && slots[slot] == None
    ensures NodeAgrees(slots[slot := Some(n)], n, Node(SetBit(node.bitmap, slot), node.numslots + 1, node.configEpoch))
  {
    hide TestBit, SetBit;
    OwnedUpdate(slots, slot, n);
    forall j: Slot ensures TestBit(SetBit(node.bitmap, slot), j) <==> slots[slot := Some(n)][j] == Some(n) {
      SetBitTest(node.bitmap, slot, j);
    }
  }

  /** Freeing a bound slot: the owner's bit is set and its count is positive, as the source asserts. */
  lemma UnbindAgrees(slots: Table, nodes: map<NodeId, Node>, slot: Slot, n: NodeId)
    requires TablesAgree(slots, nodes) && slots[slot] == Some(n)
    ensures n in nodes && TestBit(nodes[n].bitmap, slot) && nodes[n].numslots > 0
    ensures var nodes' := nodes[n := Node(ClearBit(nodes[n].bitmap, slot), nodes[n].numslots - 1,
        nodes[n].configEpoch)];
            TablesAgree(slots[slot := None], nodes') && EpochsOf(nodes') == EpochsOf(nodes)
  {
    AgreesAt(slots, n, nodes[n], slot);
    OwnedUpdate(slots, slot, n);
    var node := Node(ClearBit(nodes[n].bitmap, slot), nodes[n].numslots - 1, nodes[n].configEpoch);
    var nodes' := nodes[n := node];
    SameEpochs(nodes, n, node);
    forall x | x in nodes' ensures NodeAgrees(slots[slot := None], x, nodes'[x]) {
      assert NodeAgrees(slots, x, nodes[x]);
      if x == n {
        forall j: Slot ensures TestBit(node.bitmap, j) <==> slots[slot := None][j] == Some(n) {
          ClearBitTest(nodes[n].bitmap, slot, j);
        }
      } else {
        OwnedOther(slots, slot, None, x);
      }
    }
  }

  // ---- a replica that owns a slot ----

  /** A bitmap with one bit. */
  function OneSlot(j: Slot): Bitmap { SetBit(NoBits(), j) }

  lemma OneSlotTest(j: Slot, i: Slot)
    ensures TestBit(OneSlot(j), i) <==> i == j
  {
    hide TestBit, SetBit, NoBits;
    SetBitTest(NoBits(), j, i);
    NoBitSet(i);
  }

  /** Claiming slot j alone binds it, if it is free or bound under an older epoch, and changes nothing else. */
  lemma OneClaimed(slots: Table, importing: Table, epochs: map<NodeId, nat>, sender: NodeId, epoch: nat, j: Slot)
    requires importing[j].None? && (slots[j].Some? ==> slots[j].value in epochs && epochs[slots[j].value] < epoch)
    ensures Claimed(slots, importing, epochs, sender, epoch, OneSlot(j)) == slots[j := Some(sender)]
  {
    hide TestBit, OneSlot;
    var now := Claimed(slots, importing, epochs, sender, epoch, OneSlot(j));
    forall i: Slot ensures now[i] == slots[j := Some(sender)][i] { OneSlotTest(j, i); }
  }

  /** Announcing one slot to a node without keys. */
  method Announce<K(!new, ==), V>(c: ClusterState<K, V>, sender: NodeId, epoch: nat, j: Slot) returns (fires: bool)
    requires c.Agree() && sender in c.nodes && sender != c.me && c.db == map[] && c.importing[j].None?
    requires c.slots[j].Some? ==> c.slots[j].value in c.nodes && c.nodes[c.slots[j].value].configEpoch < epoch
    modifies c
    ensures c.Agree() && EpochsOf(c.nodes) == old(EpochsOf(c.nodes)) && c.slots == old(c.slots)[j := Some(sender)]
    ensures fires == Asserts(old(c.slots), c.slots, old(c.master), c.me)
    ensures !Orphaned(old(c.slots), c.slots, old(c.master), c.me) ==>
              c.master == old(c.master) && c.importing == old(c.importing) && c.db == map[]
  {
    OneClaimed(c.slots, c.importing, EpochsOf(c.nodes), sender, epoch, j);
    hide Claimed, TablesAgree, Known, EpochsOf, OneSlot, Asserts, Orphaned, DirtySlots;
    fires := c.UpdateSlotsConfigWith(sender, epoch, OneSlot(j));
  }

  /** A node that knows a master owning only slot a, and another node. */
  method KnowMaster<K(!new, ==), V>(me: NodeId, m: NodeId, o: NodeId, slotOf: K -> Slot, a: Slot)
    returns (c: ClusterState<K, V>)
    requires me != m && me != o && m != o
    ensures fresh(c) && c.Agree() && c.me == me && m in c.nodes && o in c.nodes && c.nodes[m].configEpoch == 0
    ensures c.slots == NoOwner()[a := Some(m)] && c.importing == NoOwner() && c.master == None && c.db == map[]
  {
    c := new ClusterState(me, slotOf);
    hide TablesAgree, EpochsOf, Known, Orphaned, Asserts;
    assert EpochsOf(c.nodes).Keys == {me};
    var _ := c.AddNode(m);
    var _ := c.AddNode(o);
    assert EpochsOf(c.nodes).Keys == c.nodes.Keys;
    EpochAt(c.nodes, m);
    NoOwnerFree(a);
    NotOrphaned(c.slots, c.slots[a := Some(m)], me);
    hide NoOwner;
    var _ := Announce(c, m, 1, a);
    EpochAt(c.nodes, m);
  }

  lemma NoOwnerFree(a: Slot)
    ensures NoOwner()[a] == None && forall j: Slot :: NoOwner()[j] == None
  {
  }

  /** Who owned nothing lost nothing. */
  lemma NotOrphaned(was: Table, now: Table, n: NodeId)
    requires forall j: Slot :: was[j] != Some(n)
    ensures !Orphaned(was, now, None, n)
  {
  }

  /** A replica accepts CLUSTER ADDSLOTS; when another node then takes the last slot of its master, the assertion
      that it owns none fails. */
  method AddSlotsOnReplica<K(!new, ==), V>(me: NodeId, m: NodeId, o: NodeId, slotOf: K -> Slot, a: Slot, b: Slot)
    returns (accepted: bool, fires: bool)
    requires me != m && me != o && m != o && a != b
    ensures accepted && fires
  {
    var c: ClusterState<K, V> := KnowMaster(me, m, o, slotOf, a);
    accepted := ReplicateAndAdd(c, m, a, b);
    hide TablesAgree, EpochsOf, Known, Asserts, Orphaned;
    fires := Announce(c, o, 1, a);
    TakenFromMaster(m, o, me, a, b);
  }

  /** An empty master becomes a replica of m, which owns slot a, and then adds slot b. */
  method ReplicateAndAdd<K(!new, ==), V>(c: ClusterState<K, V>, m: NodeId, a: Slot, b: Slot) returns (accepted: bool)
    requires c.Agree() && c.me != m && m in c.nodes && c.nodes[m].configEpoch == 0 && a != b
    requires c.slots == NoOwner()[a := Some(m)] && c.importing == NoOwner() && c.master == None && c.db == map[]
    modifies c
    ensures c.Agree() && c.master == Some(m) && accepted && c.slots == NoOwner()[a := Some(m)][b := Some(c.me)]
    ensures c.nodes.Keys == old(c.nodes.Keys) && c.nodes[m].configEpoch == 0 && c.importing[a] == None && c.db == map[]
  {
    assert Owned(c.slots, c.me) == {};
    EpochAt(c.nodes, m);
    assert c.slots[b] == None && NoOwner()[a] == NoOwner()[b] == None;
    hide TablesAgree, EpochsOf, Known, Owned, NoOwner;
    var _, _ := c.Replicate(m, false);
    accepted := AddFree(c, b);
    EpochAt(c.nodes, m);
  }

  /** CLUSTER ADDSLOTS with one slot that is free. */
  method AddFree<K(!new, ==), V>(c: ClusterState<K, V>, j: Slot) returns (accepted: bool)
    requires c.Agree() && c.slots[j] == None
    modifies c`slots, c`nodes, c`importing
    ensures c.Agree() && accepted && c.slots == old(c.slots)[j := Some(c.me)]
        && c.importing == old(c.importing)[j := None]
    ensures EpochsOf(c.nodes) == old(EpochsOf(c.nodes)) && c.nodes.Keys == old(c.nodes.Keys)
  {
    AssignedOne(c.slots, j, Some(c.me));
    AssignedOne(c.importing, j, None);
    hide Assigned, NoRepeats, TablesAgree, EpochsOf, Known;
    ghost var keys := EpochsOf(c.nodes).Keys;
    accepted := c.AddSlots([j]);
    assert EpochsOf(c.nodes).Keys == keys;
  }

  lemma AssignedOne(t: Table, j: Slot, o: Option<NodeId>)
    ensures Assigned(t, [j], o) == t[j := o] && NoRepeats([j])
  {
  }

  lemma TakenFromMaster(m: NodeId, o: NodeId, me: NodeId, a: Slot, b: Slot)
    requires me != m && me != o && m != o && a != b
    ensures var was := NoOwner()[a := Some(m)][b := Some(me)];
      Asserts(was, was[a := Some(o)], Some(m), me)
  {
    var was: Table := NoOwner()[a := Some(m)][b := Some(me)];
    var now: Table := was[a := Some(o)];
    assert was[a] == Some(m) && now[a] != Some(m);
    assert b in Owned(now, me);
  }
}
