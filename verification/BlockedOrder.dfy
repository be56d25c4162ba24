/** A run in which two clients waiting for a sorted set change places because a list was pushed to their key. */
module BlockedOrder {
  import opened Options
  import opened Blocked
  import BlockedServe

  const KEY: Key := 0

  /** Clients 1 and 4 wait for a sorted set, clients 2 and 3 for a list. */
  function WaitOf(c: Client): Wait { Wait(if c == 2 || c == 3 then OnList else OnZSet, {KEY}, None, true) }

  function WaitsOf(q: seq<Client>): map<Client, Wait> { map c | c in q :: WaitOf(c) }

  /** The clients q wait at the key, in this order. */
  function Line(q: seq<Client>, ready: seq<Key>, store: map<Key, Obj>, replies: seq<Reply>): State {
    State(if q == [] then map[] else map[KEY := q], WaitsOf(q), ready, SetOf(ready), store, replies)
  }

  lemma LineGood(q: seq<Client>, ready: seq<Key>, store: map<Key, Obj>, replies: seq<Reply>)
    requires NoDup(q) && (ready == [] || ready == [KEY])
    requires store == map[] || exists e: seq<Elem> :: e != [] && store == map[KEY := List(e)]
    ensures Good(Line(q, ready, store, replies), [], None)
  {
    assert [] + ready == ready;
  }

  /** One more client waits. */
  lemma Joins(q: seq<Client>, c: Client, q': seq<Client>)
    requires NoDup(q) && c !in q && q' == q + [c]
    ensures Good(Line(q, [], map[], []), [], None)
    ensures var st, e := Line(q, [], map[], []), Wants(c, WaitOf(c));
      Enabled(st, e) && Step(st, e) == Line(q', [], map[], [])
  {
    LineGood(q, [], map[], []);
    var st := Line(q, [], map[], []);
    hide Good;
    var st' := Block(st, c, WaitOf(c));
    assert q == [] ==> q' == [c];
    assert st'.blocking == map[KEY := q'];
    assert st'.waits == WaitsOf(q');
  }

  /** A list of one element is pushed: the key becomes ready. */
  lemma Pushed(q: seq<Client>, v: Elem)
    requires NoDup(q) && q != []
    ensures Good(Line(q, [], map[], []), [], None)
    ensures var st, e := Line(q, [], map[], []), Creates(KEY, List([v]));
      Enabled(st, e) && Step(st, e) == Line(q, [KEY], map[KEY := List([v])], [])
  {
    LineGood(q, [], map[], []);
    hide Good;
    assert [] + [KEY] == [KEY];
    assert {} + {KEY} == SetOf([KEY]);
  }

  /** Client 1 goes to the end, client 2 gets the element, and client 3 finds the list empty. */
  lemma Visits(v: Elem)
    ensures var st := Line([1, 2, 3, 4], [], map[KEY := List([v])], []);
      && Good(st, [], Some(KEY))
      && ServeList(st, KEY, 4, []) == Line([3, 4, 1], [], map[KEY := List([])], [Gave(2, v)])
  {
    var st := Line([1, 2, 3, 4], [], map[KEY := List([v])], []);
    LineGood([1, 2, 3, 4], [], map[KEY := List([v])], []);
    hide ServeList, ServeOne, Rotate;
    RotatedOne(v);
    ServedTwo(v);
    assert Good(st, [], Some(KEY)) by { Open(st); }
    hide Good;
    BlockedServe.ListRound(st, KEY, 4, []);
    BlockedServe.ListRound(Line([2, 3, 4, 1], [], map[KEY := List([v])], []), KEY, 3, []);
    BlockedServe.ListRound(Line([3, 4, 1], [], map[KEY := List([])], [Gave(2, v)]), KEY, 2, []);
  }

  lemma RotatedOne(v: Elem)
    ensures Rotate(Line([1, 2, 3, 4], [], map[KEY := List([v])], []), KEY)
            == Line([2, 3, 4, 1], [], map[KEY := List([v])], [])
  {
    assert [1, 2, 3, 4][1..] + [1] == [2, 3, 4, 1];
    assert WaitsOf([1, 2, 3, 4]) == WaitsOf([2, 3, 4, 1]);
  }

  lemma Open(st: State)
    requires Good(st, [], None)
    ensures Good(st, [], Some(KEY))
  {
  }

  lemma UnblockedTwo(store: map<Key, Obj>)
    ensures var st := Line([2, 3, 4, 1], [], store, []);
      2 in st.waits && Unblock(st, 2) == Line([3, 4, 1], [], store, [])
  {
    var st := Line([2, 3, 4, 1], [], store, []);
    assert Rest(st, 2, KEY) == [3, 4, 1];
    hide Rest;
    assert Unblock(st, 2).blocking == map[KEY := [3, 4, 1]];
    assert st.waits - {2} == WaitsOf([3, 4, 1]);
  }

  lemma ServedTwo(v: Elem)
    ensures var st := Line([2, 3, 4, 1], [], map[KEY := List([v])], []);
      2 in st.waits && ServeOne(st, KEY, 2) == Line([3, 4, 1], [], map[KEY := List([])], [Gave(2, v)])
  {
    hide Unblock;
    UnblockedTwo(map[KEY := List([])]);
    assert [v][1..] == [];
    assert map[KEY := List([v])][KEY := List([])] == map[KEY := List([])];
  }

  /** A ready key is served once if that makes no key ready. */
  lemma HandleOnce(st: State, st': State)
    requires Good(st, [], None) && st.ready == [KEY] && Good(st.(ready := []), [KEY] + [], None)
    requires ServeKey(st.(ready := []), KEY, []) == st' && st'.ready == []
    ensures Handle(st) == st'
  {
    hide Good, ServeKey;
    RoundShrinks(st, {});
    assert [KEY][1..] == [] && [KEY] + [] == [KEY];
    DrainStep(st.(ready := []), [KEY], {});
    assert Drain(st', []) == st';
    assert Drain(st.(ready := []), [KEY]) == st';
  }

  /** Serving a list that is found empty deletes it. */
  lemma ServeKeyEmpties(st: State, st1: State)
    requires Good(st, [KEY] + [], None) && KEY in st.store && st.store[KEY].List? && KEY in st.blocking
    requires var st0 := st.(readySet := st.readySet - {KEY});
      Good(st0, [], Some(KEY)) && ServeList(st0, KEY, |st0.blocking[KEY]|, []) == st1
    requires KEY in st1.store && st1.store[KEY] == List([])
    ensures ServeKey(st, KEY, []) == st1.(store := st1.store - {KEY})
  {
    hide Good, ServeList;
  }

  lemma ServesTwo(v: Elem)
    ensures var st := Line([1, 2, 3, 4], [KEY], map[KEY := List([v])], []);
      && Good(st, [], None) && Enabled(st, Serves)
      && Step(st, Serves) == Line([3, 4, 1], [], map[], [Gave(2, v)])
  {
    hide Good, ServeList, ServeKey, Handle, WaitsOf, SetOf;
    var store := map[KEY := List([v])];
    var st := Line([1, 2, 3, 4], [KEY], store, []);
    LineGood([1, 2, 3, 4], [KEY], store, []);
    TakeList(st, {});
    Visits(v);
    assert [KEY] + [] == [KEY];
    NoneReady();
    var st1, st' := Line([3, 4, 1], [], map[KEY := List([])], [Gave(2, v)]), Line([3, 4, 1], [], map[], [Gave(2, v)]);
    ServeKeyEmpties(st.(ready := []), st1);
    assert st1.store - {KEY} == map[];
    HandleOnce(st, st');
  }

  lemma NoneReady()
    ensures SetOf([KEY]) - {KEY} == SetOf([])
  {
  }

  /** From the empty server: clients 1 and 4 wait for a sorted set, 2 and 3 for a list, in the order 1, 2, 3, 4; a list
      of one element is pushed and the clients are served. The list goes to client 2, and client 4 now stands before
      client 1. */
  lemma OthersChangePlaces(v: Elem) returns (es: seq<Event>)
    ensures Possible(Quiet(), es) && Possible(Quiet(), es + [Serves])
    ensures var st, st' := Final(Quiet(), es), Final(Quiet(), es + [Serves]);
      && Queue(st, KEY) == [1, 2, 3, 4] && Queue(st', KEY) == [3, 4, 1] && st'.replies == [Gave(2, v)]
      && 1 in st'.waits && st'.waits[1].kind == OnZSet && 4 in st'.waits && st'.waits[4].kind == OnZSet
  {
    hide Good, Step, Enabled, Line, WaitOf, WaitsOf;
    es := [];
    Starts();
    Joins([], 1, [1]);
    Then(Quiet(), es, Wants(1, WaitOf(1)), Line([1], [], map[], []));
    es := es + [Wants(1, WaitOf(1))];
    hide Possible, Final;
    Joins([1], 2, [1, 2]);
    Then(Quiet(), es, Wants(2, WaitOf(2)), Line([1, 2], [], map[], []));
    es := es + [Wants(2, WaitOf(2))];
    Joins([1, 2], 3, [1, 2, 3]);
    Then(Quiet(), es, Wants(3, WaitOf(3)), Line([1, 2, 3], [], map[], []));
    es := es + [Wants(3, WaitOf(3))];
    Joins([1, 2, 3], 4, [1, 2, 3, 4]);
    Then(Quiet(), es, Wants(4, WaitOf(4)), Line([1, 2, 3, 4], [], map[], []));
    es := es + [Wants(4, WaitOf(4))];
    Pushed([1, 2, 3, 4], v);
    Then(Quiet(), es, Creates(KEY, List([v])), Line([1, 2, 3, 4], [KEY], map[KEY := List([v])], []));
    es := es + [Creates(KEY, List([v]))];
    ServesTwo(v);
    Then(Quiet(), es, Serves, Line([3, 4, 1], [], map[], [Gave(2, v)]));
    Places(v);
  }

  lemma Starts()
    ensures Quiet() == Line([], [], map[], []) && Possible(Quiet(), []) && Final(Quiet(), []) == Quiet()
  {
    assert WaitsOf([]) == map[];
  }

  lemma Places(v: Elem)
    ensures var st := Line([1, 2, 3, 4], [KEY], map[KEY := List([v])], []);
      var st' := Line([3, 4, 1], [], map[], [Gave(2, v)]);
      && Queue(st, KEY) == [1, 2, 3, 4] && Queue(st', KEY) == [3, 4, 1] && st'.replies == [Gave(2, v)]
      && 1 in st'.waits && st'.waits[1].kind == OnZSet && 4 in st'.waits && st'.waits[4].kind == OnZSet
  {
  }
}
