/** Config-epoch collisions: a master that hears another master announce its own config epoch moves on, unless its
    node ID is the greater one. Masters are numbered from the greatest node ID down, so that of two colliding
    masters the one with the greater number moves. */
module EpochCollision {
  import opened Counting

  /** A master's config epoch and current epoch, the config epochs it knows of the others, and, as a record, every
      config epoch it ever had and how often it moved. */
  datatype Master = Master(config: nat, current: nat, known: seq<nat>, past: set<nat>, bumps: nat)

  /** The header of any packet. */
  datatype Header = Header(sender: nat, current: nat, config: nat)

  /** Headers stay in the network: they may arrive late, out of order, more than once or never. */
  datatype Net = Net(masters: seq<Master>, headers: set<Header>)

  datatype Event = Send(from: nat) | Receive(to: nat, header: Header)

  /** `clusterProcessPacket` and `clusterHandleConfigEpochCollision` for master i. */
  function Received(m: Master, i: nat, h: Header): Master
    requires h.sender < |m.known|
  {
    var current := Max(m.current, h.current);
    var known := m.known[h.sender := Max(m.known[h.sender], h.config)];
    if h.config == m.config && known[h.sender] == m.config && h.sender < i
    then Master(current + 1, current + 1, known, m.past + {current + 1}, m.bumps + 1)
    else m.(current := current, known := known)
  }

  /** The same on the fields of master `rank`. */
  class MasterNode {
    const rank: nat
    var config: nat
    var current: nat
    var known: seq<nat>
    ghost var past: set<nat>
    ghost var bumps: nat

    ghost function View(): Master
      reads this
    {
      Master(config, current, known, past, bumps)
    }

    method ProcessHeader(h: Header)
      requires h.sender < |known|
      modifies this
      ensures View() == Received(old(View()), rank, h)
    {
      if h.current > current { current := h.current; }
      if h.config > known[h.sender] { known := known[h.sender := h.config]; }
      assert known == old(known)[h.sender := Max(old(known)[h.sender], h.config)];
      if h.config == config { HandleConfigEpochCollision(h.sender); }
    }

    /** `clusterHandleConfigEpochCollision`. */
    method HandleConfigEpochCollision(sender: nat)
      requires sender < |known|
      modifies this`config, this`current, this`past, this`bumps
      ensures View() == if known[sender] == old(config) && sender < rank
                        then Master(old(current) + 1, old(current) + 1, known, old(past) + {old(current) + 1},
                            old(bumps) + 1)
                        else old(View())
    {
      if known[sender] != config { return; }
      if sender >= rank { return; }
      current := current + 1;
      config := current;
      past, bumps := past + {config}, bumps + 1;
    }
  }

  predicate Enabled(s: Net, e: Event) {
    match e
    case Send(j) => j < |s.masters|
    case Receive(i, h) => i < |s.masters| && h in s.headers && h.sender != i && h.sender < |s.masters[i].known|
  }

  function Step(s: Net, e: Event): Net
    requires Enabled(s, e)
  {
    match e
    case Send(j) => s.(headers := s.headers + {Header(j, s.masters[j].current, s.masters[j].config)})
    case Receive(i, h) => s.(masters := s.masters[i := Received(s.masters[i], i, h)])
  }

  // ---- the invariant ----

  /** A master's own record: its config epoch is the greatest it had and not ahead of its current epoch. */
  ghost predicate Grows(m: Master) {
    m.config in m.past && m.config <= m.current && |m.past| == m.bumps + 1 && forall x | x in m.past :: x <= m.config
  }

  /** Every config epoch ever announced, or known by anyone, was one of its master. */
  ghost predicate Honest(s: Net) {
    && (forall h | h in s.headers :: h.sender < |s.masters| && h.config in s.masters[h.sender].past)
    && (forall i, j | 0 <= i < |s.masters| && 0 <= j < |s.masters| ::
          |s.masters[i].known| == |s.masters| && s.masters[i].known[j] <= s.masters[j].config)
  }

  /** A config epoch that master i left was once a config epoch of a master with a greater node ID. */
  ghost predicate Pushed(s: Net) {
    forall i: nat, x | i < |s.masters| && x in s.masters[i].past && x != s.masters[i].config ::
      exists j: nat :: j < i && x in s.masters[j].past
  }

  ghost predicate Inv(s: Net) {
    (forall m | m in s.masters :: Grows(m)) && Honest(s) && Pushed(s)
  }

  lemma ReceivedGrows(m: Master, i: nat, h: Header)
    requires Grows(m) && h.sender < |m.known|
    ensures Grows(Received(m, i, h)) && m.past <= Received(m, i, h).past && m.config <= Received(m, i, h).config
    ensures |Received(m, i, h).known| == |m.known|
    ensures forall x | x in Received(m, i, h).past && x != Received(m, i, h).config ::
              (x in m.past && x != m.config) || (x == h.config && h.sender < i)
  {
  }

  lemma StepKeeps(s: Net, e: Event)
    requires Inv(s) && Enabled(s, e)
    ensures Inv(Step(s, e))
  {
    if e.Receive? {
      ReceiveHonest(s, e.to, e.header);
      ReceivePushed(s, e.to, e.header);
      ReceivedGrows(s.masters[e.to], e.to, e.header);
    } else {
      assert Grows(s.masters[e.from]);
    }
  }

  lemma ReceiveHonest(s: Net, i: nat, h: Header)
    requires Inv(s) && Enabled(s, Receive(i, h))
    ensures Honest(Step(s, Receive(i, h)))
  {
    assert Grows(s.masters[i]);
    ReceivedGrows(s.masters[i], i, h);
    assert Grows(s.masters[h.sender]);
    assert h.config <= s.masters[h.sender].config;
  }

  lemma ReceivePushed(s: Net, i: nat, h: Header)
    requires Inv(s) && Enabled(s, Receive(i, h))
    ensures Pushed(Step(s, Receive(i, h)))
  {
    var s' := Step(s, Receive(i, h));
    assert Grows(s.masters[i]);
    ReceivedGrows(s.masters[i], i, h);
    hide Received;
    forall k: nat, x | k < |s'.masters| && x in s'.masters[k].past && x != s'.masters[k].config
      ensures exists j: nat :: j < k && x in s'.masters[j].past
    {
      if k == i && x == h.config && h.sender < i {
        assert x in s'.masters[h.sender].past;
      } else {
        var j: nat :| j < k && x in s.masters[j].past;
        assert x in s'.masters[j].past;
      }
    }
  }

  // ---- the bound ----

  /** The config epochs the first i masters ever had. */
  ghost function Union(ms: seq<Master>, i: nat): set<nat>
    requires i <= |ms|
  {
    if i == 0 then {} else Union(ms, i - 1) + ms[i - 1].past
  }

  lemma {:induction false} InUnion(ms: seq<Master>, i: nat, j: nat, x: nat)
    requires j < i <= |ms| && x in ms[j].past
    ensures x in Union(ms, i)
  {
    if j < i - 1 { InUnion(ms, i - 1, j, x); }
  }

  /** Each master adds one config epoch to those of the masters before it, the one it has now. */
  lemma {:induction false} UnionBound(s: Net, i: nat)
    requires Inv(s) && i <= |s.masters|
    ensures |Union(s.masters, i)| <= i
  {
    hide Inv;
    if i > 0 {
      UnionBound(s, i - 1);
      PastIn(s, i - 1);
      var u, c := Union(s.masters, i - 1), s.masters[i - 1].config;
      CardMono(Union(s.masters, i), u + {c});
      assert |u + {c}| <= |u| + 1;
    }
  }

  /** A config epoch that was left is one of those before. */
  lemma PastIn(s: Net, i: nat)
    requires Inv(s) && i < |s.masters|
    ensures s.masters[i].past - {s.masters[i].config} <= Union(s.masters, i)
  {
    var m := s.masters[i];
    forall x | x in m.past - {m.config} ensures x in Union(s.masters, i) {
      var j: nat :| j < i && x in s.masters[j].past;
      InUnion(s.masters, i, j, x);
    }
  }

  lemma PastBound(s: Net, i: nat)
    requires Inv(s) && i < |s.masters|
    ensures |s.masters[i].past| <= |Union(s.masters, i)| + 1
  {
    var m := s.masters[i];
    assert Grows(m);
    PastIn(s, i);
    CardMono(m.past - {m.config}, Union(s.masters, i));
  }

  // ---- whole runs ----

  ghost predicate Start(s: Net) {
    && s.headers == {}
    && (forall m | m in s.masters ::
        m.past == {m.config} && m.bumps == 0 && m.config <= m.current && |m.known| == |s.masters|)
    && (forall i, j | 0 <= i < |s.masters| && 0 <= j < |s.masters[i].known| && j < |s.masters| ::
          s.masters[i].known[j] <= s.masters[j].config)
  }

  lemma StartInv(s: Net)
    requires Start(s)
    ensures Inv(s)
  {
  }

  ghost predicate Possible(s: Net, es: seq<Event>)
    decreases |es|
  {
    es == [] || (Enabled(s, es[0]) && Possible(Step(s, es[0]), es[1..]))
  }

  ghost function Final(s: Net, es: seq<Event>): Net
    requires Possible(s, es)
    decreases |es|
  {
    if es == [] then s else Final(Step(s, es[0]), es[1..])
  }

  lemma {:induction false} RunKeeps(s: Net, es: seq<Event>)
    requires Inv(s) && Possible(s, es)
    ensures Inv(Final(s, es)) && |Final(s, es).masters| == |s.masters|
    decreases |es|
  {
    hide Inv;
    if es != [] {
      StepKeeps(s, es[0]);
      RunKeeps(Step(s, es[0]), es[1..]);
    }
  }

  /** The master with the k-th greatest node ID moves at most k - 1 times, however long the run. */
  lemma BumpBound(s: Net, es: seq<Event>, k: nat)
    requires Start(s) && Possible(s, es) && 1 <= k <= |s.masters|
    ensures |Final(s, es).masters| == |s.masters|
    ensures Final(s, es).masters[k - 1].bumps <= k - 1
  {
    StartInv(s);
    RunKeeps(s, es);
    BumpsAt(Final(s, es), k - 1);
  }

  lemma BumpsAt(t: Net, i: nat)
    requires Inv(t) && i < |t.masters|
    ensures t.masters[i].bumps <= i
  {
    hide Honest, Pushed, Union;
    assert Grows(t.masters[i]);
    hide Inv;
    PastBound(t, i);
    UnionBound(t, i);
  }

  /** The first n masters together move at most n(n-1)/2 times. */
  lemma {:induction false} TotalBound(s: Net, es: seq<Event>, n: nat)
    requires Start(s) && Possible(s, es) && n <= |s.masters|
    ensures |Final(s, es).masters| == |s.masters|
    ensures 2 * TotalBumps(Final(s, es).masters, n) <= n * (n - 1)
  {
    hide Start, Possible, Final;
    if n > 0 {
      TotalBound(s, es, n - 1);
      BumpBound(s, es, n);
    } else {
      StartInv(s);
      RunKeeps(s, es);
    }
  }

  ghost function TotalBumps(ms: seq<Master>, n: nat): nat
    requires n <= |ms|
  {
    if n == 0 then 0 else TotalBumps(ms, n - 1) + ms[n - 1].bumps
  }

  // ---- the bound is attained ----

  /** n masters that have not heard of each other. */
  function Fresh(n: nat): Net {
    Net(seq(n, (i: nat) => Master(0, 0, seq(n, (j: nat) => 0), {0}, 0)), {})
  }

  /** What master j announces once it has moved j times. */
  function Settled(j: nat): Header { Header(j, j, j) }

  /** Masters before i have moved as often as their number says and announced it, master i has moved j times, and the
      others have not moved. */
  ghost predicate Ladder(s: Net, n: nat, i: nat, j: nat) {
    && |s.masters| == n && i <= n && j <= i && (forall a: nat | a < i :: Settled(a) in s.headers)
    && (forall a: nat | a < n ::
          var m, k := s.masters[a], if a < i then a else if a == i then j else 0;
          m.config == k && m.current == k && m.bumps == k)
    && (forall a: nat | a < n :: |s.masters[a].known| == n && forall b: nat | b < n :: s.masters[a].known[b] <= b)
  }

  /** Master i hears master j and moves once more. */
  lemma Climb(s: Net, n: nat, i: nat, j: nat)
    requires Ladder(s, n, i, j) && j < i < n
    ensures Enabled(s, Receive(i, Settled(j))) && Ladder(Step(s, Receive(i, Settled(j))), n, i, j + 1)
  {
    var m := s.masters[i];
    assert Settled(j) in s.headers && m.config == j && m.current == j && m.bumps == j && m.known[j] <= j;
    var m' := Received(m, i, Settled(j));
    assert m'.config == j + 1 && m'.current == j + 1 && m'.bumps == j + 1 && m'.known == m.known[j := j];
    hide Received;
  }

  /** Master i announces where it ended up. */
  lemma Announce(s: Net, n: nat, i: nat)
    requires Ladder(s, n, i, i) && i < n
    ensures Enabled(s, Send(i)) && Ladder(Step(s, Send(i)), n, i + 1, 0)
  {
    assert s.masters[i].config == i;
  }

  lemma {:induction false} ClimbAll(s: Net, n: nat, i: nat, j: nat) returns (es: seq<Event>)
    requires Ladder(s, n, i, j) && (i == n ==> j == 0)
    ensures Possible(s, es) && Ladder(Final(s, es), n, n, 0)
    decreases n - i, i - j
  {
    hide Ladder, Step, Enabled;
    if i == n {
      es := [];
    } else {
      InLadder(s, n, i, j);
      var e := if j < i then Receive(i, Settled(j)) else Send(i);
      var rest;
      if j < i {
        Climb(s, n, i, j);
        rest := ClimbAll(Step(s, e), n, i, j + 1);
      } else {
        Announce(s, n, i);
        rest := ClimbAll(Step(s, e), n, i + 1, 0);
      }
      es := [e] + rest;
      assert es[1..] == rest;
    }
  }

  lemma InLadder(s: Net, n: nat, i: nat, j: nat)
    requires Ladder(s, n, i, j)
    ensures i <= n && j <= i
  {
  }

  lemma {:induction false} LadderTotal(ms: seq<Master>, n: nat)
    requires n <= |ms| && forall a: nat | a < n :: ms[a].bumps == a
    ensures 2 * TotalBumps(ms, n) == n * (n - 1)
  {
    if n > 0 { LadderTotal(ms, n - 1); }
  }

  /** For every n there is a run of n masters with equal config epochs in which each moves as often as it can. */
  lemma BoundsAttained(n: nat) returns (s: Net, es: seq<Event>)
    ensures Start(s) && |s.masters| == n && Possible(s, es) && |Final(s, es).masters| == n
    ensures forall i: nat | i < n :: Final(s, es).masters[i].bumps == i
    ensures 2 * TotalBumps(Final(s, es).masters, n) == n * (n - 1)
  {
    s := Fresh(n);
    assert Ladder(s, n, 0, 0);
    es := ClimbAll(s, n, 0, 0);
    hide Possible, Final, Start;
    LadderTotal(Final(s, es).masters, n);
  }

  // ---- the states in which nothing moves any more ----

  /** No master would move on hearing another as it is now. */
  ghost predicate Quiescent(s: Net)
    requires Honest(s)
  {
    forall i: nat, j: nat | i < |s.masters| && j < |s.masters| && i != j ::
      Received(s.masters[i], i, Header(j, s.masters[j].current, s.masters[j].config)).bumps == s.masters[i].bumps
  }

  ghost predicate Distinct(s: Net) {
    forall i: nat, j: nat | i < j < |s.masters| :: s.masters[i].config != s.masters[j].config
  }

  /** Resolution stops exactly when all config epochs differ. */
  lemma QuiescentIff(s: Net, es: seq<Event>)
    requires Start(s) && Possible(s, es)
    ensures Honest(Final(s, es)) && (Quiescent(Final(s, es)) <==> Distinct(Final(s, es)))
  {
    StartInv(s);
    RunKeeps(s, es);
    QuiescentDistinct(Final(s, es));
  }

  lemma QuiescentDistinct(t: Net)
    requires Honest(t)
    ensures Quiescent(t) <==> Distinct(t)
  {
    if Quiescent(t) {
      forall i: nat, j: nat | i < j < |t.masters| ensures t.masters[i].config != t.masters[j].config {
        var h := Header(i, t.masters[i].current, t.masters[i].config);
        assert Received(t.masters[j], j, h).bumps == t.masters[j].bumps;
        assert t.masters[j].known[i] <= h.config;
      }
    }
  }
}
