/** A MIGRATE that names a key twice: the second RESTORE can bring back a key that was deleted on the target after the
    first. */
module ReshardRepeat {
  import opened Options
  import opened ClusterView
  import opened Reshard

  type Nats = map<nat, nat>

  function NoNode(): seq<Option<NodeId>> { seq(16384, (i: nat) => None) }

  function Node0(): seq<Option<NodeId>> { seq(16384, (i: nat) => Some(0)) }

  /** Node 0, which owns all slots, and node 1. Every key is in slot 0. */
  function Pair(migrating: Option<NodeId>, importing: Option<NodeId>, a: Nats, b: Nats, asked: set<seq<seq<nat>>>,
                busy: bool, restores: seq<(nat, nat)>, acks: seq<(nat, bool)>): Sys<nat, nat>
  {
    var slotOf := (k: nat) => 0;
    Sys(0, View(0, None, {0, 1}, slotOf, Node0(), NoNode()[0 := migrating], NoNode(), a, true),
        View(1, None, {0, 1}, slotOf, Node0(), NoNode(), NoNode()[0 := importing], b, true),
        asked, busy, restores, acks)
  }

  /** SET 2 20. */
  function Set2(): Cmd<nat, nat> { Cmd([[2]], (m: Nats) => map[2 := 20]) }

  /** DEL 1 2. */
  function Del(): Cmd<nat, nat> { Cmd([[1, 2]], (m: Nats) => map[]) }

  const ONE: Nats := map[1 := 10]
  const TWO: Nats := map[2 := 20]
  const BOTH: Nats := map[1 := 10, 2 := 20]

  /** Slot 0 is opened; key 2 is created on the target; DEL 1 2 is redirected because the source lacks key 2. Then
      key 1 is migrated, named twice, and DEL 1 2 runs on the target between the two RESTOREs. */
  function EventAt(i: nat): Event<nat, nat>
    requires i < 9
  {
    match i
    case 0 => MigratingAtA
    case 1 => ImportingAtB
    case 2 => ClientAtA(Set2(), false, false)
    case 3 => ClientAtB(Set2(), true, false)
    case 4 => ClientAtA(Del(), false, false)
    case 5 => MigrateStart([1, 1])
    case 6 => RestoreAtB
    case 7 => ClientAtB(Del(), true, false)
    case _ => RestoreAtB
  }

  function StateAt(i: nat): Sys<nat, nat>
    requires i <= 9
  {
    match i
    case 0 => Pair(None, None, ONE, map[], {}, false, [], [])
    case 1 => Pair(Some(1), None, ONE, map[], {}, false, [], [])
    case 2 => Pair(Some(1), Some(0), ONE, map[], {}, false, [], [])
    case 3 => Pair(Some(1), Some(0), ONE, map[], {[[2]]}, false, [], [])
    case 4 => Pair(Some(1), Some(0), ONE, TWO, {[[2]]}, false, [], [])
    case 5 => Pair(Some(1), Some(0), ONE, TWO, {[[2]], [[1, 2]]}, false, [], [])
    case 6 => Pair(Some(1), Some(0), ONE, TWO, {[[2]], [[1, 2]]}, true, [(1, 10), (1, 10)], [])
    case 7 => Pair(Some(1), Some(0), ONE, BOTH, {[[2]], [[1, 2]]}, true, [(1, 10)], [(1, true)])
    case 8 => Pair(Some(1), Some(0), ONE, map[], {[[2]], [[1, 2]]}, true, [(1, 10)], [(1, true)])
    case _ => Pair(Some(1), Some(0), ONE, ONE, {[[2]], [[1, 2]]}, true, [], [(1, true), (1, true)])
  }

  ghost predicate Moves(i: nat)
    requires i < 9
  {
    && Sized(StateAt(i).a) && Sized(StateAt(i).b)
    && Enabled(StateAt(i), EventAt(i)) && Step(StateAt(i), EventAt(i)) == StateAt(i + 1)
  }

  lemma KeysAre()
    ensures Keys([[2]]) == [2] && Keys([[1, 2]]) == [1, 2] && Keys([[1, 1]]) == [1, 1] && Keys([[1]]) == [1]
  {
    assert [[2]][1..] == [] && [[1, 2]][1..] == [] && [[1, 1]][1..] == [] && [[1]][1..] == [];
  }

  lemma Opening()
    ensures Moves(0) && Moves(1)
  {
    assert NoNode()[0 := None] == NoNode();
  }

  lemma Redirected(i: nat)
    requires i == 2 || i == 4
    ensures Moves(i)
  {
    KeysAre();
    hide Exec;
    if i == 2 {
      assert 2 in [2];
      assert {[[2]]} == {} + {[[2]]};
    } else {
      assert 2 in [1, 2];
      assert {[[2]]} + {[[1, 2]]} == {[[2]], [[1, 2]]};
    }
  }

  lemma Created()
    ensures Moves(3)
  {
    KeysAre();
    assert Exec(map[], Set2()) == TWO;
    hide Exec;
  }

  lemma Started()
    ensures Moves(5)
  {
    KeysAre();
    assert [1, 1][1..] == [1] && [1][1..] == [];
    assert Payload(ONE, [1]) == [(1, 10)] + [] && Payload(ONE, [1, 1]) == [(1, 10)] + [(1, 10)];
  }

  lemma Restored()
    ensures Moves(6)
  {
    ServesOne(TWO);
    assert TWO[1 := 10] == BOTH;
    assert [(1, 10), (1, 10)][1..] == [(1, 10)] && [(1, 10), (1, 10)][0] == (1, 10);
    assert [] + [(1, true)] == [(1, true)];
    hide Exec, Payload, Route;
  }

  lemma RestoredAgain()
    ensures Moves(8)
  {
    ServesOne(map[]);
    assert map[][1 := 10] == ONE;
    assert [(1, 10)][1..] == [] && [(1, 10)][0] == (1, 10);
    assert [(1, true)] + [(1, true)] == [(1, true), (1, true)];
    hide Exec, Payload, Route;
  }

  /** The target accepts the RESTORE of key 1. */
  lemma ServesOne(b: Nats)
    ensures var v := View(1, None, {0, 1}, (k: nat) => 0, Node0(), NoNode(), NoNode()[0 := Some(0)], b, true);
      Sized(v) && Route(v, Query([[1]], false, true, false)) == Serve
  {
    KeysAre();
  }

  lemma Deleted()
    ensures Moves(7)
  {
    KeysAre();
    assert Exec(BOTH, Del()) == map[];
    hide Exec;
  }

  lemma AllMove(i: nat)
    requires i < 9
    ensures Moves(i)
  {
    hide Moves;
    if i < 2 { Opening(); }
    else if i == 2 || i == 4 { Redirected(i); }
    else if i == 3 { Created(); }
    else if i == 5 { Started(); }
    else if i == 7 { Deleted(); }
    else if i == 6 { Restored(); }
    else { RestoredAgain(); }
  }

  function From(i: nat): seq<Event<nat, nat>>
    requires i <= 9
  {
    seq(9 - i, (k: nat) requires k < 9 - i => EventAt(i + k))
  }

  lemma {:induction false} FromRuns(i: nat)
    requires i <= 9
    ensures Possible(StateAt(i), From(i)) && Final(StateAt(i), From(i)) == StateAt(9)
    decreases 9 - i
  {
    hide StateAt, EventAt, Step, Enabled;
    if i < 9 {
      FromRuns(i + 1);
      assert From(i)[1..] == From(i + 1) && From(i)[0] == EventAt(i);
      AllMove(i);
    } else {
      assert From(9) == [];
      LastSized();
    }
  }

  lemma LastSized()
    ensures Sized(StateAt(9).a) && Sized(StateAt(9).b)
  {
  }

  lemma RanAsked(i: nat)
    requires i == 2 || i == 4
    ensures Sized(StateAt(i).a) && Sized(StateAt(i).b) && Ran(StateAt(i), EventAt(i)) == None
  {
    KeysAre();
    if i == 2 { assert 2 in [2]; } else { assert 2 in [1, 2]; }
  }

  lemma RanServed(i: nat)
    requires i == 3 || i == 7
    ensures Sized(StateAt(i).a) && Sized(StateAt(i).b)
    ensures Ran(StateAt(i), EventAt(i)) == Some(if i == 3 then Set2() else Del())
  {
    KeysAre();
  }

  /** Only two commands of the run are executed. */
  lemma RanAt(i: nat)
    requires i < 9
    ensures Sized(StateAt(i).a) && Sized(StateAt(i).b)
    ensures Ran(StateAt(i), EventAt(i)) == if i == 3 then Some(Set2()) else if i == 7 then Some(Del()) else None
  {
    hide Route, Keys;
    if i == 2 || i == 4 { RanAsked(i); }
    if i == 3 || i == 7 { RanServed(i); }
  }

  lemma {:induction false} HistoryFrom(i: nat)
    requires i <= 9
    ensures Possible(StateAt(i), From(i))
    ensures History(StateAt(i), From(i)) == if i <= 3 then [Set2(), Del()] else if i <= 7 then [Del()] else []
    decreases 9 - i
  {
    hide StateAt, EventAt, Step, Enabled, Ran, Set2, Del;
    FromRuns(i);
    if i < 9 {
      HistoryFrom(i + 1);
      assert From(i)[1..] == From(i + 1) && From(i)[0] == EventAt(i);
      AllMove(i);
      RanAt(i);
    } else {
      assert From(9) == [];
    }
  }

  /** After both commands key 1 is gone. */
  lemma BothExecuted(m: Nats)
    ensures 1 !in ExecAll(m, [Set2(), Del()])
  {
    KeysAre();
    assert [Set2(), Del()][1..] == [Del()] && [Del()][1..] == [];
    assert ExecAll(m, [Set2(), Del()]) == Exec(Exec(m, Set2()), Del());
  }

  /** The key is there again although the last command of the run deleted it. */
  lemma RepeatedKeyReturns() returns (s: Sys<nat, nat>, es: seq<Event<nat, nat>>)
    ensures Initial(s) && Possible(s, es)
    ensures 1 in Logical(Final(s, es)) && 1 !in ExecAll(Logical(s), History(s, es))
  {
    s, es := StateAt(0), From(0);
    assert Initial(s);
    assert 1 in StateAt(9).b.db && InSlot(StateAt(9), 1);
    assert 1 in Logical(StateAt(9));
    hide StateAt, EventAt, Step, Possible, Final, Logical, Initial, History, ExecAll;
    FromRuns(0);
    HistoryFrom(0);
    BothExecuted(Logical(s));
  }
}
