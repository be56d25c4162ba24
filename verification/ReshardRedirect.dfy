/** Clients that follow MOVED and ASK during live resharding: exactly when they reach a node that serves them. */
module ReshardRedirect {
  import opened Options
  import opened ClusterView
  import opened Reshard

  /** The node a redirection names. */
  function AtNode<K, V>(s: Sys<K, V>, n: NodeId, c: Cmd<K, V>, asking: bool, ro: bool): Option<Event<K, V>> {
    if n == s.a.me then Some(ClientAtA(c, asking, ro))
    else if n == s.b.me then Some(ClientAtB(c, asking, ro))
    else None
  }

  /** What a client does next: after MOVED it goes to the node named, after ASK it goes there with ASKING. */
  function Next<K(==), V>(s: Sys<K, V>, e: Event<K, V>): Option<Event<K, V>>
    requires Sized(s.a) && Sized(s.b) && (e.ClientAtA? || e.ClientAtB?)
  {
    match Route(if e.ClientAtA? then s.a else s.b, QueryOf(e.cmd, e.asking, e.readonly))
    case Ask(n) => AtNode(s, n, e.cmd, true, e.readonly)
    case Moved(n) => AtNode(s, n, e.cmd, false, e.readonly)
    case _ => None
  }

  /** Following redirections at most `hops` times, the client finds a node that runs its command. */
  ghost predicate Reaches<K(!new), V>(s: Sys<K, V>, e: Event<K, V>, hops: nat)
    requires Sized(s.a) && Sized(s.b) && (e.ClientAtA? || e.ClientAtB?)
    decreases hops
  {
    && Enabled(s, e)
    && (Ran(s, e).Some?
        || (hops > 0 && Next(s, e).Some? && Reaches(Step(s, e), Next(s, e).value, hops - 1)))
  }

  /** A command on the one key k of the slot, and both nodes answer. */
  ghost predicate OneKey<K(!new), V>(s: Sys<K, V>, c: Cmd<K, V>, k: K) {
    Keys(c.cmds) == [k] && InSlot(s, k) && s.a.up && s.b.up
  }

  predicate OwnsA<K, V>(s: Sys<K, V>) requires Sized(s.a) { s.a.slots[s.slot] == Some(s.a.me) }

  predicate OwnsB<K, V>(s: Sys<K, V>) requires Sized(s.b) { s.b.slots[s.slot] == Some(s.b.me) }

  /** One of the nodes is ready for the key: A if it has the slot and either is not migrating it or has the key, B if it
      has the slot or is importing it while A has it. */
  predicate Ready<K(==), V>(s: Sys<K, V>, k: K)
    requires Sized(s.a) && Sized(s.b)
  {
    OwnsB(s) || (OwnsA(s) && (s.a.migrating[s.slot].None? || k in s.a.db || s.b.importing[s.slot].Some?))
  }

  /** A's answer. An ASK names B. */
  lemma AnswerAtA<K(!new), V>(s: Sys<K, V>, c: Cmd<K, V>, k: K, asking: bool, ro: bool)
    requires SlotStates(s) && OneKey(s, c, k)
    ensures Route(s.a, QueryOf(c, asking, ro)) ==
            if !OwnsA(s) then Moved(s.b.me)
            else if s.a.migrating[s.slot].Some? && k !in s.a.db then Ask(s.b.me)
            else Serve
  {
    assert k in [k];
  }

  /** B's answer. */
  lemma AnswerAtB<K(!new), V>(s: Sys<K, V>, c: Cmd<K, V>, k: K, asking: bool, ro: bool)
    requires SlotStates(s) && OneKey(s, c, k)
    ensures Route(s.b, QueryOf(c, asking, ro)) ==
            if OwnsB(s) || (asking && s.b.importing[s.slot].Some?) then Serve else Moved(s.a.me)
  {
    assert k in [k];
  }

  /** Whatever A answers to a query on the slot, an ASK or MOVED names B; B only ever names A. */
  lemma AnswersName<K(!new), V>(s: Sys<K, V>, q: Query<K>, n: NodeId)
    requires SlotStates(s) && Keys(q.cmds) != [] && InSlot(s, Keys(q.cmds)[0])
    ensures Route(s.a, q) == Ask(n) || Route(s.a, q) == Moved(n) ==> n == s.b.me
    ensures Route(s.b, q) != Ask(n) && (Route(s.b, q) == Moved(n) ==> n == s.a.me)
  {
  }

  /** What being redirected leaves unchanged. */
  lemma RedirectKeeps<K(!new), V>(s: Sys<K, V>, e: Event<K, V>)
    requires SlotStates(s) && !s.busy && (e.ClientAtA? || e.ClientAtB?) && Enabled(s, e)
    requires Route(if e.ClientAtA? then s.a else s.b, QueryOf(e.cmd, e.asking, e.readonly)) != Serve
    ensures var s' := Step(s, e);
      && s'.slot == s.slot && s'.a == s.a && s'.b == s.b && !s'.busy && s.asked <= s'.asked
      && (e.ClientAtA? && Next(s, e).Some? && Next(s, e).value.asking ==> e.cmd.cmds in s'.asked)
  {
    hide Route;
  }

  /** From A, one hop is enough. */
  lemma FromA<K(!new), V>(s: Sys<K, V>, c: Cmd<K, V>, k: K, ro: bool, hops: nat)
    requires SlotStates(s) && !s.busy && OneKey(s, c, k) && Ready(s, k) && hops >= 1
    ensures Reaches(s, ClientAtA(c, false, ro), hops)
  {
    hide Route;
    var e := ClientAtA(c, false, ro);
    AnswerAtA(s, c, k, false, ro);
    if Route(s.a, QueryOf(c, false, ro)) != Serve {
      RedirectKeeps(s, e);
      var s' := Step(s, e);
      var e' := Next(s, e).value;
      AnswerAtB(s', c, k, e'.asking, ro);
      assert Ran(s', e').Some?;
      assert Reaches(s', e', hops - 1);
    }
  }

  /** From B, two. */
  lemma FromB<K(!new), V>(s: Sys<K, V>, c: Cmd<K, V>, k: K, ro: bool, hops: nat)
    requires SlotStates(s) && !s.busy && OneKey(s, c, k) && Ready(s, k) && hops >= 2
    ensures Reaches(s, ClientAtB(c, false, ro), hops)
  {
    hide Route;
    var e := ClientAtB(c, false, ro);
    AnswerAtB(s, c, k, false, ro);
    if Route(s.b, QueryOf(c, false, ro)) != Serve {
      RedirectKeeps(s, e);
      FromA(Step(s, e), c, k, ro, hops - 1);
    }
  }

  /** If neither node is ready, they send the client to and fro. */
  lemma {:induction false} ToAndFro<K(!new), V>(s: Sys<K, V>, e: Event<K, V>, k: K, hops: nat)
    requires SlotStates(s) && !s.busy && (e.ClientAtA? || e.ClientAtB?) && OneKey(s, e.cmd, k) && !Ready(s, k)
    requires e.ClientAtB? && e.asking ==> OwnsA(s)
    ensures !Reaches(s, e, hops)
    decreases hops
  {
    hide Route;
    if Enabled(s, e) {
      AnswerAtA(s, e.cmd, k, e.asking, e.readonly);
      AnswerAtB(s, e.cmd, k, e.asking, e.readonly);
      RedirectKeeps(s, e);
      if hops > 0 { ToAndFro(Step(s, e), Next(s, e).value, k, hops - 1); }
    }
  }

  /** From either node a client reaches one that runs its command, within two redirections, if and only if one of them
      is ready for the key; otherwise it never does. */
  lemma RedirectsReachIff<K(!new), V>(s: Sys<K, V>, c: Cmd<K, V>, k: K, ro: bool, hops: nat)
    requires Inv(s) && !s.busy && OneKey(s, c, k) && hops >= 2
    ensures Reaches(s, ClientAtA(c, false, ro), hops) <==> Ready(s, k)
    ensures Reaches(s, ClientAtB(c, false, ro), hops) <==> Ready(s, k)
  {
    hide Reaches, Phases, Tokens, Apart, Transfers;
    if Ready(s, k) {
      FromA(s, c, k, ro, hops);
      FromB(s, c, k, ro, hops);
    } else {
      ToAndFro(s, ClientAtA(c, false, ro), k, hops);
      ToAndFro(s, ClientAtB(c, false, ro), k, hops);
    }
  }

  // ---- the order of the operator's steps ----

  /** One of the nodes is ready for every key. */
  predicate Open<K, V>(s: Sys<K, V>)
    requires Sized(s.a) && Sized(s.b)
  {
    OwnsB(s) || (OwnsA(s) && (s.a.migrating[s.slot].None? || s.b.importing[s.slot].Some?))
  }

  /** IMPORTING is set on B before MIGRATING on A, and NODE on B before A. */
  predicate TargetFirst<K, V>(s: Sys<K, V>, e: Event<K, V>)
    requires Sized(s.a) && Sized(s.b)
  {
    (e.MigratingAtA? ==> s.b.importing[s.slot].Some?) && (e.NodeAtA? ==> OwnsB(s))
  }

  lemma StaysOpen<K(!new), V>(s: Sys<K, V>, e: Event<K, V>)
    requires SlotStates(s) && Enabled(s, e) && Open(s) && TargetFirst(s, e)
    ensures Sized(Step(s, e).a) && Sized(Step(s, e).b) && Open(Step(s, e))
  {
    hide Route, Exec, Payload, Holds, Keys;
  }

  ghost predicate TargetAlwaysFirst<K(!new), V>(s: Sys<K, V>, es: seq<Event<K, V>>)
    requires Possible(s, es)
    decreases |es|
  {
    es == [] || (TargetFirst(s, es[0]) && TargetAlwaysFirst(Step(s, es[0]), es[1..]))
  }

  lemma {:induction false} RunStaysOpen<K(!new), V>(s: Sys<K, V>, es: seq<Event<K, V>>)
    requires Inv(s) && Open(s) && Possible(s, es) && NeverRepeats(s, es) && TargetAlwaysFirst(s, es)
    ensures Inv(Final(s, es)) && Open(Final(s, es))
    decreases |es|
  {
    if es != [] {
      StepRefines(s, es[0]);
      StaysOpen(s, es[0]);
      hide Inv, Logical, Step, Enabled, NoRepeats, Ran, Open, TargetFirst;
      RunStaysOpen(Step(s, es[0]), es[1..]);
    }
  }

  /** In every run in which the operator sets up the target first, whatever else is interleaved, a client with a key of
      the slot finds its node from either side within two redirections. */
  lemma ClientsAlwaysServed<K(!new), V>(s: Sys<K, V>, es: seq<Event<K, V>>, c: Cmd<K, V>, k: K, ro: bool)
    requires Initial(s) && Possible(s, es) && NeverRepeats(s, es) && TargetAlwaysFirst(s, es)
    ensures Inv(Final(s, es))
    ensures var t := Final(s, es);
      !t.busy && OneKey(t, c, k) ==> Reaches(t, ClientAtA(c, false, ro), 2) && Reaches(t, ClientAtB(c, false, ro), 2)
  {
    InitialInv(s);
    RunStaysOpen(s, es);
    var t := Final(s, es);
    hide Initial, Reaches, Possible, NeverRepeats, TargetAlwaysFirst, Final;
    if !t.busy && OneKey(t, c, k) { RedirectsReachIff(t, c, k, ro, 2); }
  }

  /** The slot is given away on A before B claims it: from then on no command on its keys reaches a node that runs it.
      This can be done to every empty slot. */
  lemma SourceFirstLoops<K(!new), V>(s: Sys<K, V>) returns (es: seq<Event<K, V>>)
    requires Initial(s) && !Holds(s.a, s.slot) && s.b.me in s.a.nodes && s.a.me in s.b.nodes
    ensures Possible(s, es) && Inv(Final(s, es)) && !Final(s, es).busy
    ensures forall k :: !Ready(Final(s, es), k)
  {
    InitialInv(s);
    hide Route, Keys, Tokens, Apart, Transfers, Phases, Moving, InFlight, Logical;
    es := [ImportingAtB, MigratingAtA, NodeAtA];
    var s1 := Step(s, ImportingAtB);
    StepRefines(s, ImportingAtB);
    var s2 := Step(s1, MigratingAtA);
    StepRefines(s1, MigratingAtA);
    var s3 := Step(s2, NodeAtA);
    StepRefines(s2, NodeAtA);
    assert es[1..] == [MigratingAtA, NodeAtA] && es[1..][1..] == [NodeAtA] && es[1..][1..][1..] == [];
    assert Possible(s3, []) && Final(s3, []) == s3;
    assert Possible(s2, [NodeAtA]) && Final(s2, [NodeAtA]) == s3;
    assert Possible(s1, es[1..]) && Final(s1, es[1..]) == s3;
  }
}
