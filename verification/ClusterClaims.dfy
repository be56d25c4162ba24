/** Slot claims converge: whatever the order and repetition in which nodes announce their slots, the slot table
    ends up binding every slot to the claimant with the highest config epoch. */
module ClusterClaims {
  import opened Options
  import opened ClusterView
  import opened ClusterSlots

  /** What a node announces: its config epoch and its slots. */
  datatype Claim = Claim(epoch: nat, bits: Bitmap)

  type Claims = map<NodeId, Claim>

  /** What the receiving node keeps of it. */
  datatype Local = Local(slots: Table, epochs: map<NodeId, nat>)

  /** A header from the claimant itself, or an UPDATE about it from anyone. */
  datatype Packet = Header(node: NodeId) | Update(node: NodeId)

  ghost predicate Claimant(c: Claims, m: NodeId, j: Slot) {
    m in c && TestBit(c[m].bits, j)
  }

  /** m has the highest epoch of all that claim slot j. */
  ghost predicate Winner(c: Claims, m: NodeId, j: Slot) {
    Claimant(c, m, j) && forall o | Claimant(c, o, j) :: c[o].epoch <= c[m].epoch
  }

  ghost predicate Distinct(c: Claims) {
    forall m, o | m in c && o in c && c[m].epoch == c[o].epoch :: m == o
  }

  /** Known epochs are not ahead of the announced ones, and slots are bound to known nodes. */
  ghost predicate Behind(c: Claims, st: Local) {
    && (forall m | m in c :: m in st.epochs && st.epochs[m] <= c[m].epoch)
    && (forall j: Slot :: st.slots[j].Some? ==> st.slots[j].value in st.epochs)
  }

  /** The claims of m have been taken into account: each of its slots is bound under its epoch or a later one. */
  ghost predicate Heard(c: Claims, st: Local, m: NodeId) {
    forall j: Slot :: Claimant(c, m, j) ==> HeardAt(c, st, m, j)
  }

  ghost predicate HeardAt(c: Claims, st: Local, m: NodeId, j: Slot)
    requires m in c
  {
    st.slots[j].Some? && st.slots[j].value in st.epochs && st.epochs[st.slots[j].value] >= c[m].epoch
  }

  /** One packet, received by a node that is importing nothing. */
  ghost function Deliver(c: Claims, st: Local, p: Packet): Local
    requires p.node in c && p.node in st.epochs
  {
    var n := p.node;
    if p.Update? && st.epochs[n] >= c[n].epoch then st
    else
      var epochs := Raised(st.epochs, n, c[n].epoch);
      Local(Claimed(st.slots, NoOwner(), epochs, n, c[n].epoch, c[n].bits), epochs)
  }

  ghost function Run(c: Claims, st: Local, ps: seq<Packet>): Local
    requires Behind(c, st) && forall p | p in ps :: p.node in c
    decreases |ps|
  {
    if ps == [] then st
    else
      DeliverBehind(c, st, ps[0]);
      Run(c, Deliver(c, st, ps[0]), ps[1..])
  }

  /** What a packet does to one slot. */
  lemma DeliverAt(c: Claims, st: Local, p: Packet, j: Slot)
    requires Behind(c, st) && p.node in c
    ensures var st' := Deliver(c, st, p); var n := p.node;
      && (st'.slots[j] == st.slots[j]
          || (st'.slots[j] == Some(n) && Claimant(c, n, j) && st'.epochs[n] == c[n].epoch
              && (st.slots[j].None? || st'.epochs[st.slots[j].value] < c[n].epoch)))
      && (p.Header? && Claimant(c, n, j) ==> HeardAt(c, st', n, j))
  {
    hide TestBit;
    assert NoOwner()[j].None?;
  }

  lemma DeliverEpochs(c: Claims, st: Local, p: Packet, m: NodeId)
    requires Behind(c, st) && p.node in c && m in st.epochs
    ensures var st' := Deliver(c, st, p);
      m in st'.epochs && st.epochs[m] <= st'.epochs[m] && (m in c ==> st'.epochs[m] <= c[m].epoch)
  {
    hide Claimed;
  }

  lemma DeliverBehind(c: Claims, st: Local, p: Packet)
    requires Behind(c, st) && p.node in c
    ensures Behind(c, Deliver(c, st, p))
  {
    var st' := Deliver(c, st, p);
    forall m | m in c ensures m in st'.epochs && st'.epochs[m] <= c[m].epoch { DeliverEpochs(c, st, p, m); }
    forall j: Slot | st'.slots[j].Some? ensures st'.slots[j].value in st'.epochs {
      DeliverAt(c, st, p, j);
      if st.slots[j].Some? { DeliverEpochs(c, st, p, st.slots[j].value); }
      hide Deliver;
    }
  }

  /** Once heard, always heard. */
  lemma DeliverHeard(c: Claims, st: Local, p: Packet, m: NodeId)
    requires Behind(c, st) && p.node in c && m in c && Heard(c, st, m)
    ensures Heard(c, Deliver(c, st, p), m)
  {
    var st' := Deliver(c, st, p);
    forall j: Slot | Claimant(c, m, j) ensures HeardAt(c, st', m, j) {
      assert HeardAt(c, st, m, j);
      DeliverAt(c, st, p, j);
      DeliverEpochs(c, st, p, st.slots[j].value);
      hide Deliver, Claimant;
    }
  }

  lemma HeaderHeard(c: Claims, st: Local, p: Packet)
    requires Behind(c, st) && p.node in c && p.Header?
    ensures Heard(c, Deliver(c, st, p), p.node)
  {
    var st' := Deliver(c, st, p);
    forall j: Slot | Claimant(c, p.node, j) ensures HeardAt(c, st', p.node, j) { DeliverAt(c, st, p, j); }
  }

  lemma {:induction false} RunHears(c: Claims, st: Local, ps: seq<Packet>, m: NodeId)
    requires Behind(c, st) && (forall p | p in ps :: p.node in c)
    requires m in c && (Heard(c, st, m) || Header(m) in ps)
    ensures Behind(c, Run(c, st, ps)) && Heard(c, Run(c, st, ps), m)
    decreases |ps|
  {
    assert ps != [] ==> ps[0].node in st.epochs;
    hide Heard, Behind, Deliver;
    if ps != [] {
      var next := Deliver(c, st, ps[0]);
      DeliverBehind(c, st, ps[0]);
      if ps[0] == Header(m) {
        HeaderHeard(c, st, ps[0]);
      } else if Heard(c, st, m) {
        DeliverHeard(c, st, ps[0], m);
      }
      RunHears(c, next, ps[1..], m);
    }
  }

  lemma {:induction false} RunBehind(c: Claims, st: Local, ps: seq<Packet>)
    requires Behind(c, st) && forall p | p in ps :: p.node in c
    ensures Behind(c, Run(c, st, ps))
    decreases |ps|
  {
    assert ps != [] ==> ps[0].node in st.epochs;
    hide Behind, Deliver;
    if ps != [] {
      DeliverBehind(c, st, ps[0]);
      RunBehind(c, Deliver(c, st, ps[0]), ps[1..]);
    }
  }

  /** The epoch a node is known under once its announcement arrived. */
  ghost function LastEpoch(c: Claims, st: Local, x: NodeId): nat
    requires x in st.epochs
  {
    if x in c then c[x].epoch else st.epochs[x]
  }

  /** Slot j is bound to its first owner or to a claimant, known under no later epoch than that. */
  ghost predicate OwnedSince(c: Claims, st: Local, first: Option<NodeId>, last: nat, j: Slot) {
    st.slots[j].Some? ==>
      && st.slots[j].value in st.epochs
      && (Claimant(c, st.slots[j].value, j) || (st.slots[j] == first && st.epochs[first.value] <= last))
  }

  lemma DeliverOwned(c: Claims, st: Local, p: Packet, first: Option<NodeId>, last: nat, j: Slot)
    requires Behind(c, st) && p.node in c && OwnedSince(c, st, first, last, j)
    requires first.Some? && first.value in c ==> c[first.value].epoch <= last
    ensures OwnedSince(c, Deliver(c, st, p), first, last, j)
  {
    DeliverAt(c, st, p, j);
    if st.slots[j].Some? { DeliverEpochs(c, st, p, st.slots[j].value); }
    DeliverBehind(c, st, p);
    var st' := Deliver(c, st, p);
    if st.slots[j] == first && first.Some? && first.value !in c {
      assert st'.epochs[first.value] == st.epochs[first.value];
    }
    hide Deliver, Claimant;
  }

  lemma {:induction false} RunOwned(c: Claims, st: Local, ps: seq<Packet>, first: Option<NodeId>, last: nat, j: Slot)
    requires Behind(c, st) && (forall p | p in ps :: p.node in c) && OwnedSince(c, st, first, last, j)
    requires first.Some? && first.value in c ==> c[first.value].epoch <= last
    ensures OwnedSince(c, Run(c, st, ps), first, last, j)
    decreases |ps|
  {
    assert ps != [] ==> ps[0].node in st.epochs;
    hide OwnedSince, Behind, Deliver;
    if ps != [] {
      DeliverBehind(c, st, ps[0]);
      DeliverOwned(c, st, ps[0], first, last, j);
      RunOwned(c, Deliver(c, st, ps[0]), ps[1..], first, last, j);
    }
  }

  /** The owner of slot j is known under an epoch no claimant exceeds. */
  ghost predicate Holds(c: Claims, st: Local, j: Slot) {
    forall m | Claimant(c, m, j) ::
      st.slots[j].Some? && st.slots[j].value in st.epochs && c[m].epoch <= st.epochs[st.slots[j].value]
  }

  lemma {:induction false} RunStays(c: Claims, st: Local, ps: seq<Packet>, j: Slot)
    requires Behind(c, st) && (forall p | p in ps :: p.node in c) && Holds(c, st, j)
    ensures Run(c, st, ps).slots[j] == st.slots[j]
    decreases |ps|
  {
    if ps != [] {
      var next := Deliver(c, st, ps[0]);
      DeliverBehind(c, st, ps[0]);
      DeliverAt(c, st, ps[0], j);
      if st.slots[j].Some? { DeliverEpochs(c, st, ps[0], st.slots[j].value); }
      hide Behind, Deliver, Claimant;
      assert next.slots[j] == st.slots[j];
      RunStays(c, next, ps[1..], j);
    }
  }

  /** The first owner of slot j gives way to a claimant of epoch e: there is none, it claims the slot itself, or its
      epoch is lower. */
  ghost predicate GivesWay(c: Claims, st: Local, j: Slot, e: nat)
    requires st.slots[j].Some? ==> st.slots[j].value in st.epochs
  {
    st.slots[j].None? || Claimant(c, st.slots[j].value, j) || LastEpoch(c, st, st.slots[j].value) < e
  }

  /** The packets are announcements, and every claimant was heard (our own claims are what we start with). */
  ghost predicate Complete(c: Claims, st: Local, ps: seq<Packet>) {
    (forall p | p in ps :: p.node in c) && forall m | m in c :: Heard(c, st, m) || Header(m) in ps
  }

  /** In every order of packets in which each claimant was heard, a slot goes to the claimant with the highest config
      epoch if its first owner gives way. Slots nobody claims keep their owner. */
  lemma ClaimsConverge(c: Claims, st: Local, ps: seq<Packet>, j: Slot)
    requires Behind(c, st) && Distinct(c) && Complete(c, st, ps)
    ensures forall w | Winner(c, w, j) && GivesWay(c, st, j, c[w].epoch) :: Run(c, st, ps).slots[j] == Some(w)
    ensures (forall m :: !Claimant(c, m, j)) ==> Run(c, st, ps).slots[j] == st.slots[j]
  {
    forall w | Winner(c, w, j) && GivesWay(c, st, j, c[w].epoch) ensures Run(c, st, ps).slots[j] == Some(w) {
      WinnerTakes(c, st, ps, j, w);
    }
    if forall m :: !Claimant(c, m, j) { RunStays(c, st, ps, j); }
  }

  lemma WinnerTakes(c: Claims, st: Local, ps: seq<Packet>, j: Slot, w: NodeId)
    requires Behind(c, st) && Distinct(c) && Complete(c, st, ps)
    requires Winner(c, w, j) && GivesWay(c, st, j, c[w].epoch)
    ensures Run(c, st, ps).slots[j] == Some(w)
  {
    var first := st.slots[j];
    var last := if first.Some? then LastEpoch(c, st, first.value) else 0;
    RunBehind(c, st, ps);
    RunOwned(c, st, ps, first, last, j);
    RunHears(c, st, ps, w);
    var st' := Run(c, st, ps);
    assert HeardAt(c, st', w, j);
    hide Run, TestBit;
    if Claimant(c, st'.slots[j].value, j) { assert c[st'.slots[j].value].epoch == c[w].epoch; }
  }

  /** The condition is exact: every order gives the slot to the winner if and only if the first owner gives way.
      Otherwise it stays, at the latest when that owner is heard first. */
  lemma ConvergesIff(c: Claims, st: Local, j: Slot, w: NodeId)
    requires Behind(c, st) && Distinct(c) && Winner(c, w, j)
    ensures (forall ps | Complete(c, st, ps) :: Run(c, st, ps).slots[j] == Some(w)) <==> GivesWay(c, st, j, c[w].epoch)
  {
    if GivesWay(c, st, j, c[w].epoch) {
      forall ps | Complete(c, st, ps) ensures Run(c, st, ps).slots[j] == Some(w) { WinnerTakes(c, st, ps, j, w); }
    } else {
      var ps := OwnerFirst(c, st, j, w);
      assert Complete(c, st, ps) && Run(c, st, ps).slots[j] != Some(w);
    }
  }

  /** An order that leaves the slot with its first owner. */
  lemma OwnerFirst(c: Claims, st: Local, j: Slot, w: NodeId) returns (ps: seq<Packet>)
    requires Behind(c, st) && Winner(c, w, j) && !GivesWay(c, st, j, c[w].epoch)
    ensures Complete(c, st, ps) && Run(c, st, ps).slots[j] == st.slots[j] != Some(w)
  {
    ps := Headers(c.Keys);
    var x := st.slots[j].value;
    if x in c {
      var next := Deliver(c, st, Header(x));
      DeliverBehind(c, st, Header(x));
      DeliverAt(c, st, Header(x), j);
      assert next.slots[j] == st.slots[j] && next.epochs[x] == c[x].epoch;
      hide Behind, Deliver;
      RunStays(c, next, ps, j);
      var all := [Header(x)] + ps;
      assert all[1..] == ps;
      ps := all;
    } else {
      RunStays(c, st, ps, j);
    }
  }

  /** A header of each node. */
  lemma {:induction false} Headers(ns: set<NodeId>) returns (ps: seq<Packet>)
    ensures forall p :: p in ps <==> p.Header? && p.node in ns
  {
    ps := [];
    if ns != {} {
      var n :| n in ns;
      var rest := Headers(ns - {n});
      ps := [Header(n)] + rest;
    }
  }

  /** A claimed slot has a winner. */
  lemma {:induction false} WinnerExists(c: Claims, m: NodeId, j: Slot, left: set<NodeId>) returns (w: NodeId)
    requires Claimant(c, m, j) && forall o | Claimant(c, o, j) && o !in left :: c[o].epoch <= c[m].epoch
    ensures Winner(c, w, j)
    decreases |left|
  {
    if left == {} {
      w := m;
    } else {
      var o :| o in left;
      w := WinnerExists(c, if Claimant(c, o, j) && c[o].epoch > c[m].epoch then o else m, j, left - {o});
    }
  }

  /** Two nodes that heard the same claims in whatever order agree on every claimed slot, when their first owners
      give way, and on an unclaimed slot if and only if they agreed before. */
  lemma ViewsAgree(c: Claims, st1: Local, ps1: seq<Packet>, st2: Local, ps2: seq<Packet>, j: Slot)
    requires Behind(c, st1) && Behind(c, st2) && Distinct(c) && Complete(c, st1, ps1) && Complete(c, st2, ps2)
    requires forall w | Winner(c, w, j) :: GivesWay(c, st1, j, c[w].epoch) && GivesWay(c, st2, j, c[w].epoch)
    ensures Run(c, st1, ps1).slots[j] == Run(c, st2, ps2).slots[j]
            <==> (exists m :: Claimant(c, m, j)) || st1.slots[j] == st2.slots[j]
  {
    ClaimsConverge(c, st1, ps1, j);
    ClaimsConverge(c, st2, ps2, j);
    hide Run, Behind, Complete;
    if m :| Claimant(c, m, j) {
      var w := WinnerExists(c, m, j, c.Keys);
    }
  }
}
