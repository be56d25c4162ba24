/** Which elements blocked clients get, and what is left: the list before is what BLPOP clients got, what is left, and
    what BRPOP and BRPOPLPUSH clients got, from the end. */
module BlockedServe {
  import opened Options
  import opened Blocked

  type Waits = map<Client, Wait>

  /** The element a reply speaks of. */
  function ElemOf(r: Reply): seq<Elem> { if r.WrongType? then [] else [r.elem] }

  predicate FromHead(r: Reply, ws: Waits) { r.client in ws && ws[r.client].head }

  /** What was popped from the head, in order. */
  function Heads(rs: seq<Reply>, ws: Waits): seq<Elem> {
    if rs == [] then [] else (if FromHead(rs[0], ws) then ElemOf(rs[0]) else []) + Heads(rs[1..], ws)
  }

  /** What was popped from the tail, as it stood in the list: the first pop comes last. */
  function Tails(rs: seq<Reply>, ws: Waits): seq<Elem> {
    if rs == [] then [] else Tails(rs[1..], ws) + (if FromHead(rs[0], ws) then [] else ElemOf(rs[0]))
  }

  predicate MovedAt(r: Reply, ws: Waits, x: Key) { r.Moved? && r.client in ws && ws[r.client].target == Some(x) }

  /** What was pushed to the head of the list at x, the first push last. */
  function Pushes(rs: seq<Reply>, ws: Waits, x: Key): seq<Elem> {
    if rs == [] then [] else Pushes(rs[1..], ws, x) + (if MovedAt(rs[0], ws, x) then [rs[0].elem] else [])
  }

  function ListAt(store: map<Key, Obj>, x: Key): seq<Elem> {
    if x in store && store[x].List? then store[x].elems else []
  }

  /** The reply that the client's command and the type of its target call for. */
  predicate Fits(r: Reply, ws: Waits, store: map<Key, Obj>) {
    && r.client in ws
    && match ws[r.client].target
       case None => r.Gave?
       case Some(x) => if Wrong(store, x) then r.WrongType? else r.Moved?
  }

  /** Keys other than `key`: lists got the pushes at their head, anything else is as before. */
  ghost predicate OthersGot(store: map<Key, Obj>, store': map<Key, Obj>, key: Key, rs: seq<Reply>, ws: Waits) {
    forall x | x != key ::
      && ListAt(store', x) == Pushes(rs, ws, x) + ListAt(store, x)
      && Wrong(store', x) == Wrong(store, x) && (Wrong(store, x) ==> store'[x] == store[x])
      && (x in store' <==> x in store || Pushes(rs, ws, x) != [])
  }

  /** What the replies rs say became of the list at `key`. */
  ghost predicate Dealt(store: map<Key, Obj>, store': map<Key, Obj>, key: Key, rs: seq<Reply>, ws: Waits) {
    && key in store' && store'[key].List?
    && Heads(rs, ws) + ListAt(store', key) + Tails(rs, ws) == ListAt(store, key)
    && OthersGot(store, store', key, rs, ws)
    && forall r | r in rs :: Fits(r, ws, store)
  }

  lemma NothingDealt(store: map<Key, Obj>, key: Key, ws: Waits)
    requires key in store && store[key].List?
    ensures Dealt(store, store, key, [], ws)
  {
    assert [] + ListAt(store, key) + [] == ListAt(store, key);
  }

  /** One client: BLPOP takes the first element, BRPOP and BRPOPLPUSH the last. Without a target the client gets it; a
      target gets it at its head, created if need be, even if it is the key itself; a target of another type gets
      nothing, and the list is as before. */
  lemma ServedOne(st: State, key: Key, c: Client) returns (v: Elem, left: seq<Elem>)
    requires c in st.waits && key in st.store && st.store[key].List? && st.store[key].elems != []
    ensures st.store[key].elems == if st.waits[c].head then [v] + left else left + [v]
    ensures var st' := ServeOne(st, key, c);
      match st.waits[c].target
      case None => st'.store == st.store[key := List(left)] && st'.replies == st.replies + [Gave(c, v)]
      case Some(x) =>
        if Wrong(st.store, x) then st'.store == st.store && st'.replies == st.replies + [WrongType(c)]
        else
          && st'.replies == st.replies + [Moved(c, v)]
          && st'.store == if x == key then st.store[key := List([v] + left)]
                          else st.store[key := List(left)][x := List([v] + ListAt(st.store, x))]
  {
    var s, w := st.store[key].elems, st.waits[c];
    hide Unblock;
    UnblockKeeps(st.(store := st.store[key := List(Left(s, w.head))]), c);
    v, left := Taken(s, w.head), Left(s, w.head);
    if w.head { assert s == [s[0]] + s[1..]; } else { assert s == s[..|s| - 1] + [s[|s| - 1]]; }
    assert st.store[key := List(left)][key := List(s)] == st.store && [v] + [] == [v];
    assert st.store[key := List(left)][key := List([v] + left)] == st.store[key := List([v] + left)];
  }

  lemma OneElem(r: Reply, ws: Waits, x: Key)
    ensures Heads([r], ws) == if FromHead(r, ws) then ElemOf(r) else []
    ensures Tails([r], ws) == if FromHead(r, ws) then [] else ElemOf(r)
    ensures Pushes([r], ws, x) == if MovedAt(r, ws, x) then [r.elem] else []
  {
    assert [r][1..] == [];
  }

  /** A reply that moved nothing: only the key itself may have changed. */
  lemma OthersSame(store: map<Key, Obj>, key: Key, o: Obj, r: Reply, ws: Waits)
    requires !r.Moved?
    ensures OthersGot(store, store[key := o], key, [r], ws)
  {
    hide Pushes;
    forall x | x != key ensures Pushes([r], ws, x) == [] && [] + ListAt(store, x) == ListAt(store, x) {
      OneElem(r, ws, x);
    }
  }

  lemma OneEnd(r: Reply, left: seq<Elem>, ws: Waits)
    requires !r.WrongType?
    ensures Heads([r], ws) + left + Tails([r], ws) == if FromHead(r, ws) then [r.elem] + left else left + [r.elem]
  {
    OneElem(r, ws, 0);
    hide Heads, Tails;
    assert [r.elem] + left + [] == [r.elem] + left && [] + left + [r.elem] == left + [r.elem];
  }

  /** An element popped and given away. */
  lemma GaveDealt(store: map<Key, Obj>, key: Key, r: Reply, left: seq<Elem>, ws: Waits)
    requires key in store && store[key].List? && r.Gave? && r.client in ws && ws[r.client].target == None
    requires store[key].elems == if FromHead(r, ws) then [r.elem] + left else left + [r.elem]
    ensures Dealt(store, store[key := List(left)], key, [r], ws)
  {
    OthersSame(store, key, List(left), r, ws);
    OneEnd(r, left, ws);
    hide Heads, Tails, Pushes, OthersGot, FromHead;
  }

  /** An element popped and moved to the head of another list. */
  lemma MovedDealt(store: map<Key, Obj>, key: Key, r: Reply, left: seq<Elem>, x: Key, ws: Waits)
    requires key in store && store[key].List? && r.Moved? && r.client in ws && ws[r.client].target == Some(x)
    requires x != key && !Wrong(store, x)
    requires store[key].elems == if FromHead(r, ws) then [r.elem] + left else left + [r.elem]
    ensures Dealt(store, store[key := List(left)][x := List([r.elem] + ListAt(store, x))], key, [r], ws)
  {
    OtherMoved(store, key, r, left, x, ws);
    OneEnd(r, left, ws);
    hide Heads, Tails, Pushes, OthersGot, FromHead;
  }

  lemma OtherMoved(store: map<Key, Obj>, key: Key, r: Reply, left: seq<Elem>, x: Key, ws: Waits)
    requires key in store && r.Moved? && r.client in ws && ws[r.client].target == Some(x)
    requires x != key && !Wrong(store, x)
    ensures OthersGot(store, store[key := List(left)][x := List([r.elem] + ListAt(store, x))], key, [r], ws)
  {
    hide Pushes;
    forall y | y != key
      ensures Pushes([r], ws, y) == (if y == x then [r.elem] else []) && [] + ListAt(store, y) == ListAt(store, y)
    {
      OneElem(r, ws, y);
    }
  }

  /** Nothing, because the target holds another type. */
  lemma WrongDealt(store: map<Key, Obj>, key: Key, r: Reply, ws: Waits)
    requires key in store && store[key].List? && r.WrongType? && r.client in ws
    requires ws[r.client].target.Some? && Wrong(store, ws[r.client].target.value)
    ensures Dealt(store, store, key, [r], ws)
  {
    OthersSame(store, key, store[key], r, ws);
    assert store[key := store[key]] == store;
    OneElem(r, ws, key);
    hide Heads, Tails, Pushes, OthersGot, FromHead;
    assert [] + ListAt(store, key) + [] == ListAt(store, key);
  }

  /** In terms of the reply, unless the target is the key itself. */
  lemma OneDealt(st: State, key: Key, c: Client, ws: Waits) returns (r: Reply)
    requires c in st.waits && key in st.store && st.store[key].List? && st.store[key].elems != []
    requires c in ws && ws[c] == st.waits[c] && ws[c].target != Some(key)
    ensures var st' := ServeOne(st, key, c);
      st'.replies == st.replies + [r] && r.client == c && Dealt(st.store, st'.store, key, [r], ws)
  {
    hide ServeOne, Dealt, Wrong, ListAt;
    var v, left := ServedOne(st, key, c);
    match st.waits[c].target {
      case None =>
        r := Gave(c, v);
        GaveDealt(st.store, key, r, left, ws);
      case Some(x) =>
        if Wrong(st.store, x) {
          r := WrongType(c);
          WrongDealt(st.store, key, r, ws);
        } else {
          r := Moved(c, v);
          MovedDealt(st.store, key, r, left, x, ws);
        }
    }
  }

  lemma HeadsJoin(r: Reply, rs: seq<Reply>, ws: Waits, x: Key)
    ensures Heads([r] + rs, ws) == Heads([r], ws) + Heads(rs, ws)
    ensures Tails([r] + rs, ws) == Tails(rs, ws) + Tails([r], ws)
    ensures Pushes([r] + rs, ws, x) == Pushes(rs, ws, x) + Pushes([r], ws, x)
  {
    OneElem(r, ws, x);
    assert ([r] + rs)[1..] == rs;
  }

  lemma OthersJoin(s0: map<Key, Obj>, s1: map<Key, Obj>, s2: map<Key, Obj>, key: Key, r: Reply, rs: seq<Reply>,
                   ws: Waits)
    requires OthersGot(s0, s1, key, [r], ws) && OthersGot(s1, s2, key, rs, ws)
    ensures OthersGot(s0, s2, key, [r] + rs, ws)
  {
    hide Heads, Tails, Pushes, ListAt, Wrong;
    forall x | x != key
      ensures ListAt(s2, x) == Pushes([r] + rs, ws, x) + ListAt(s0, x)
      ensures x in s2 <==> x in s0 || Pushes([r] + rs, ws, x) != []
    {
      HeadsJoin(r, rs, ws, x);
      assert Pushes(rs, ws, x) + (Pushes([r], ws, x) + ListAt(s0, x)) == Pushes([r] + rs, ws, x) + ListAt(s0, x);
    }
    WrongHere(s0, s1, s2);
  }

  lemma WrongHere(s0: map<Key, Obj>, s1: map<Key, Obj>, s2: map<Key, Obj>)
    ensures forall x | Wrong(s0, x) :: x in s0
    ensures forall x | Wrong(s1, x) :: x in s1
    ensures forall x | Wrong(s2, x) :: x in s2
  {
  }

  lemma DealtJoin(s0: map<Key, Obj>, s1: map<Key, Obj>, s2: map<Key, Obj>, key: Key, r: Reply, rs: seq<Reply>,
                  ws: Waits)
    requires key in s0 && s0[key].List? && Dealt(s0, s1, key, [r], ws) && Dealt(s1, s2, key, rs, ws)
    ensures Dealt(s0, s2, key, [r] + rs, ws)
  {
    hide Heads, Tails, Pushes, ListAt;
    OthersJoin(s0, s1, s2, key, r, rs, ws);
    HeadsJoin(r, rs, ws, key);
    var a, b, c, d, e := Heads([r], ws), Heads(rs, ws), ListAt(s2, key), Tails(rs, ws), Tails([r], ws);
    assert a + b + c + (d + e) == a + (b + c + d) + e;
    assert forall x :: Wrong(s1, x) == Wrong(s0, x);
    hide OthersGot, Wrong;
    forall q | q in [r] + rs ensures Fits(q, ws, s0) {
      if q in rs { assert Fits(q, ws, s1); } else { assert q in [r]; }
    }
  }

  /** The waits of the clients in q are as recorded, and no target is the key itself. */
  ghost predicate Recorded(q: seq<Client>, waits: Waits, key: Key, ws: Waits) {
    forall c | c in q && c in waits ::
      c in ws && ws[c] == waits[c] && (ws[c].kind == OnList ==> ws[c].target != Some(key))
  }

  lemma RepliesJoin(a: seq<Reply>, r: Reply, rs: seq<Reply>)
    ensures a + [r] + rs == a + ([r] + rs) && a + [] == a
  {
  }

  lemma SameReplies(a: seq<Reply>, x: seq<Reply>, y: seq<Reply>)
    requires a + x == a + y
    ensures x == y
  {
    assert x == (a + x)[|a|..] && y == (a + y)[|a|..];
  }

  lemma NoRound(st: State, key: Key, l: seq<Key>)
    requires Good(st, l, Some(key))
    ensures key in st.store && st.store[key].List? ==> ServeList(st, key, 0, l) == st
    ensures key in st.store && st.store[key].ZSet? && st.store[key].elems != [] ==> ServeZSet(st, key, 0, l) == st
    ensures forall n: nat | key !in st.store && (n > 0 ==> key in st.blocking && n <= |st.blocking[key]|) ::
              ServeZSet(st, key, n, l) == st
  {
    hide Good;
  }

  /** One round of the loop over the clients of a list. */
  lemma ListRound(st: State, key: Key, n: nat, l: seq<Key>)
    requires Good(st, l, Some(key)) && key in st.store && st.store[key].List?
    requires n > 0 && key in st.blocking && n <= |st.blocking[key]|
    ensures st.blocking[key] != [] && st.blocking[key][0] in st.waits
    ensures var c := st.blocking[key][0];
      if st.waits[c].kind != OnList then
        var st1 := Rotate(st, key);
        && Good(st1, l, Some(key)) && st1.store == st.store && |st1.blocking[key]| == |st.blocking[key]|
        && ServeList(st, key, n, l) == ServeList(st1, key, n - 1, l)
      else if st.store[key].elems == [] then ServeList(st, key, n, l) == st
      else
        var st1 := ServeOne(st, key, c);
        && Good(st1, l, Some(key)) && key in st1.store && st1.store[key].List? && st1.waits == st.waits - {c}
        && (if |st.blocking[key]| == 1 then key !in st1.blocking
            else key in st1.blocking && st1.blocking[key] == st.blocking[key][1..])
        && ServeList(st, key, n, l) == ServeList(st1, key, n - 1, l)
  {
    hide Good, ServeOne, Indexed, NoDup;
    var c := st.blocking[key][0];
    FirstWaits(st, l, Some(key), key);
    RotateGood(st, l, Some(key), key, {});
    if st.waits[c].kind == OnList && st.store[key].elems != [] {
      ServeOneGood(st, l, key, c, {});
      ServeOneFacts(st, key, c);
    }
  }

  /** Serving a list: what the clients got, from whichever end, and what is left make up the list that was there, and
      every target has what was moved to it at its head. ServeListInOrder says who the clients are. */
  lemma {:induction false} ServeListDeals(st: State, key: Key, n: nat, l: seq<Key>, ws: Waits) returns (rs: seq<Reply>)
    requires Good(st, l, Some(key)) && key in st.store && st.store[key].List?
    requires n > 0 ==> key in st.blocking && n <= |st.blocking[key]|
    requires Recorded(Queue(st, key), st.waits, key, ws)
    ensures var st' := ServeList(st, key, n, l);
      st'.replies == st.replies + rs && Dealt(st.store, st'.store, key, rs, ws)
    decreases n
  {
    hide Good, ServeOne, ServeList, Rotate, Dealt, Recorded, Queue;
    rs := [];
    NothingDealt(st.store, key, ws);
    RepliesJoin(st.replies, Gave(0, 0), []);
    NoRound(st, key, l);
    if n > 0 {
      ListRound(st, key, n, l);
      var c := st.blocking[key][0];
      if st.waits[c].kind != OnList {
        RotateRecorded(st, key, ws);
        rs := ServeListDeals(Rotate(st, key), key, n - 1, l, ws);
      } else if st.store[key].elems != [] {
        var st1 := ServeOne(st, key, c);
        FirstRecorded(st, key, ws);
        var r := OneDealt(st, key, c, ws);
        RestRecorded(st, st1, key, ws);
        var more := ServeListDeals(st1, key, n - 1, l, ws);
        DealtJoin(st.store, st1.store, ServeList(st, key, n, l).store, key, r, more, ws);
        RepliesJoin(st.replies, r, more);
        rs := [r] + more;
      }
    }
  }

  lemma RotateRecorded(st: State, key: Key, ws: Waits)
    requires key in st.blocking && st.blocking[key] != [] && Recorded(Queue(st, key), st.waits, key, ws)
    ensures Recorded(Queue(Rotate(st, key), key), Rotate(st, key).waits, key, ws)
    ensures Rotate(st, key).replies == st.replies && key in Rotate(st, key).blocking
  {
  }

  lemma FirstRecorded(st: State, key: Key, ws: Waits)
    requires key in st.blocking && st.blocking[key] != [] && Recorded(Queue(st, key), st.waits, key, ws)
    requires var c := st.blocking[key][0]; c in st.waits && st.waits[c].kind == OnList
    ensures var c := st.blocking[key][0]; c in ws && ws[c] == st.waits[c] && ws[c].target != Some(key)
  {
    assert st.blocking[key][0] in st.blocking[key];
  }

  lemma RestRecorded(st: State, st1: State, key: Key, ws: Waits)
    requires key in st.blocking && st.blocking[key] != [] && Recorded(Queue(st, key), st.waits, key, ws)
    requires st1.waits == st.waits - {st.blocking[key][0]}
    requires key in st1.blocking ==> st1.blocking[key] == st.blocking[key][1..]
    ensures Recorded(Queue(st1, key), st1.waits, key, ws)
  {
  }

  // ---- clients of one kind ----

  ghost predicate AllGave(rs: seq<Reply>) { forall r | r in rs :: r.Gave? }

  lemma EndStep(rs: seq<Reply>, ws: Waits)
    ensures rs == [] ==> Heads(rs, ws) == [] && Tails(rs, ws) == []
    ensures rs != [] && rs[0].Gave? ==>
              if FromHead(rs[0], ws) then
                Heads(rs, ws) == [rs[0].elem] + Heads(rs[1..], ws) && Tails(rs, ws) == Tails(rs[1..], ws)
              else Heads(rs, ws) == Heads(rs[1..], ws) && Tails(rs, ws) == Tails(rs[1..], ws) + [rs[0].elem]
  {
  }

  /** Popped from the head only: element i is that of reply i. */
  lemma {:induction false} HeadOnly(rs: seq<Reply>, ws: Waits, i: nat)
    requires AllGave(rs) && forall r | r in rs :: FromHead(r, ws)
    ensures |Heads(rs, ws)| == |rs| && Tails(rs, ws) == []
    ensures i < |rs| ==> rs[i] in rs && rs[i].elem == Heads(rs, ws)[i]
    decreases |rs|
  {
    EndStep(rs, ws);
    hide Heads, Tails, FromHead;
    if rs != [] {
      assert rs[0] in rs && forall r | r in rs[1..] :: r in rs;
      HeadOnly(rs[1..], ws, if i > 0 then i - 1 else 0);
    }
  }

  /** Popped from the tail only: element i from the end is that of reply i. */
  lemma {:induction false} TailOnly(rs: seq<Reply>, ws: Waits, i: nat)
    requires AllGave(rs) && forall r | r in rs :: !FromHead(r, ws)
    ensures |Tails(rs, ws)| == |rs| && Heads(rs, ws) == []
    ensures i < |rs| ==> rs[i] in rs && rs[i].elem == Tails(rs, ws)[|rs| - 1 - i]
    decreases |rs|
  {
    EndStep(rs, ws);
    hide Heads, Tails, FromHead;
    if rs != [] {
      assert rs[0] in rs && forall r | r in rs[1..] :: r in rs;
      TailOnly(rs[1..], ws, if i > 0 then i - 1 else 0);
    }
  }

  /** The clients of the key's queue that wait for a list pop from that end, for themselves. */
  ghost predicate AllPop(st: State, key: Key, head: bool) {
    forall c | c in Queue(st, key) && c in st.waits && st.waits[c].kind == OnList ::
      st.waits[c].target == None && st.waits[c].head == head
  }

  lemma {:induction false} AmongWait(q: seq<Client>, waits: Waits, kind: Kind, c: Client)
    requires c in Among(q, waits, kind, true)
    ensures c in q && c in waits && waits[c].kind == kind
    decreases |q|
  {
    if c in Among(q[1..], waits, kind, true) { AmongWait(q[1..], waits, kind, c); }
  }

  /** Whoever is served stood in the queue and waited for that. */
  lemma ServedWait(st: State, key: Key, p: nat, kind: Kind, rs: seq<Reply>, r: Reply)
    requires p <= |Queue(st, key)| && Clients(rs) == Among(Queue(st, key)[..p], st.waits, kind, true) && r in rs
    ensures r.client in Queue(st, key) && r.client in st.waits && st.waits[r.client].kind == kind
  {
    var i :| 0 <= i < |rs| && rs[i] == r;
    assert Clients(rs)[i] == r.client;
    AmongWait(Queue(st, key)[..p], st.waits, kind, r.client);
  }

  ghost predicate Waited(st: State, key: Key, r: Reply) {
    r.client in Queue(st, key) && r.client in st.waits && st.waits[r.client].kind == OnList
  }

  ghost predicate AllWait(st: State, key: Key, rs: seq<Reply>) { forall r | r in rs :: Waited(st, key, r) }

  /** The clients served are the first of those that wait, and all of them if something is left. */
  lemma ServedFirst(st: State, key: Key, n: nat, l: seq<Key>) returns (rs: seq<Reply>)
    requires Good(st, l, Some(key)) && key in st.store && st.store[key].List?
    requires n > 0 ==> key in st.blocking && n <= |st.blocking[key]|
    ensures var st' := ServeList(st, key, n, l); var cs := Among(Queue(st, key)[..n], st.waits, OnList, true);
      && st'.replies == st.replies + rs && Clients(rs) <= cs
      && key in st'.store && st'.store[key].List? && (|rs| < |cs| ==> st'.store[key].elems == [])
    ensures AllWait(st, key, rs)
  {
    ServeListInOrder(st, key, n, l);
    var st' := ServeList(st, key, n, l);
    rs := st'.replies[|st.replies|..];
    var q, p := Queue(st, key)[..n], ListStop(st, key, n);
    hide ServeList, Good, ListStop, Queue, Among;
    assert q == q[..p] + q[p..] && q[..p] == Queue(st, key)[..p];
    AmongJoin(q[..p], q[p..], st.waits, OnList, true);
    if p == n {
      assert q[p..] == [];
      NoneInNone(st.waits);
    }
    forall r | r in rs ensures Waited(st, key, r) {
      ServedWait(st, key, p, OnList, rs, r);
    }
  }

  lemma NoneInNone(waits: Waits)
    ensures Among([], waits, OnList, true) == []
  {
  }

  /** Client number i gets element number i, counted from the head or from the tail. */
  ghost predicate InTurn(rs: seq<Reply>, cs: seq<Client>, s: seq<Elem>, head: bool) {
    && |rs| <= |cs| && |rs| <= |s|
    && forall i | 0 <= i < |rs| :: rs[i] == Gave(cs[i], s[if head then i else |s| - 1 - i])
  }

  /** BLPOP clients: the first gets the first element, the second the second, and so on. BRPOP clients: from the end.
      The clients are served in their order, and all of them are unless nothing is left. */
  lemma PopsInOrder(st: State, key: Key, n: nat, l: seq<Key>, head: bool) returns (rs: seq<Reply>)
    requires Good(st, l, Some(key)) && key in st.store && st.store[key].List? && AllPop(st, key, head)
    requires n > 0 ==> key in st.blocking && n <= |st.blocking[key]|
    ensures var st' := ServeList(st, key, n, l); var cs := Among(Queue(st, key)[..n], st.waits, OnList, true);
      var s := st.store[key].elems;
      && st'.replies == st.replies + rs && |rs| == (if |cs| < |s| then |cs| else |s|)
      && InTurn(rs, cs, s, head)
      && st'.store == st.store[key := List(if head then s[|rs|..] else s[..|s| - |rs|])]
  {
    hide ServeList, Good, AllPop, Dealt, InTurn, Clients, Recorded;
    assert Recorded(Queue(st, key), st.waits, key, st.waits) by { PopRecorded(st, key, head); }
    rs := ServeListDeals(st, key, n, l, st.waits);
    var first := ServedFirst(st, key, n, l);
    SameReplies(st.replies, first, rs);
    PopsFrom(st, ServeList(st, key, n, l), key, rs, Among(Queue(st, key)[..n], st.waits, OnList, true), head);
  }

  lemma PopsFrom(st: State, st': State, key: Key, rs: seq<Reply>, cs: seq<Client>, head: bool)
    requires key in st.store && st.store[key].List? && AllPop(st, key, head) && AllWait(st, key, rs)
    requires Dealt(st.store, st'.store, key, rs, st.waits)
    requires Clients(rs) <= cs && (|rs| < |cs| ==> st'.store[key].elems == [])
    ensures var s := st.store[key].elems;
      && |rs| == (if |cs| < |s| then |cs| else |s|) && InTurn(rs, cs, s, head)
      && st'.store == st.store[key := List(if head then s[|rs|..] else s[..|s| - |rs|])]
  {
    hide Queue, AllPop, AllWait, Heads, Tails, OthersGot, InTurn, Clients, AllGave, FromHead, Fits;
    AllGaveHere(st, key, head, rs);
    PopsAre(rs, st.waits, head, st.store[key].elems, st'.store[key].elems, cs);
    NoPushes(rs, st.waits, key, st.store, st'.store);
  }

  lemma PopRecorded(st: State, key: Key, head: bool)
    requires AllPop(st, key, head)
    ensures Recorded(Queue(st, key), st.waits, key, st.waits)
  {
  }

  lemma AllGaveHere(st: State, key: Key, head: bool, rs: seq<Reply>)
    requires AllPop(st, key, head) && AllWait(st, key, rs) && forall r | r in rs :: Fits(r, st.waits, st.store)
    ensures AllGave(rs) && forall r | r in rs :: FromHead(r, st.waits) == head
  {
    hide Queue;
    forall r | r in rs ensures r.Gave? && FromHead(r, st.waits) == head { assert Waited(st, key, r); }
  }

  lemma HeadPops(rs: seq<Reply>, ws: Waits, s: seq<Elem>, left: seq<Elem>, i: nat)
    requires AllGave(rs) && (forall r | r in rs :: FromHead(r, ws)) && Heads(rs, ws) + left + Tails(rs, ws) == s
    ensures |rs| <= |s| && left == s[|rs|..] && (i < |rs| ==> rs[i] in rs && rs[i].elem == s[i])
  {
    hide Heads, Tails;
    HeadOnly(rs, ws, i);
    Ends(s, left, Heads(rs, ws), []);
  }

  lemma TailPops(rs: seq<Reply>, ws: Waits, s: seq<Elem>, left: seq<Elem>, i: nat)
    requires AllGave(rs) && (forall r | r in rs :: !FromHead(r, ws)) && Heads(rs, ws) + left + Tails(rs, ws) == s
    ensures |rs| <= |s| && left == s[..|s| - |rs|] && (i < |rs| ==> rs[i] in rs && rs[i].elem == s[|s| - 1 - i])
  {
    hide Heads, Tails;
    TailOnly(rs, ws, i);
    Ends(s, left, [], Tails(rs, ws));
  }

  lemma PopAt(rs: seq<Reply>, ws: Waits, head: bool, s: seq<Elem>, left: seq<Elem>, cs: seq<Client>, i: nat)
    requires AllGave(rs) && (forall r | r in rs :: FromHead(r, ws) == head) && Heads(rs, ws) + left + Tails(rs, ws) == s
    requires Clients(rs) <= cs && i < |rs|
    ensures |rs| <= |cs| && |rs| <= |s| && rs[i] == Gave(cs[i], s[if head then i else |s| - 1 - i])
  {
    hide Heads, Tails;
    if head { HeadPops(rs, ws, s, left, i); } else { TailPops(rs, ws, s, left, i); }
    assert Clients(rs)[i] == cs[i];
  }

  lemma PopsAre(rs: seq<Reply>, ws: Waits, head: bool, s: seq<Elem>, left: seq<Elem>, cs: seq<Client>)
    requires AllGave(rs) && (forall r | r in rs :: FromHead(r, ws) == head) && Heads(rs, ws) + left + Tails(rs, ws) == s
    requires Clients(rs) <= cs && (|rs| < |cs| ==> left == [])
    ensures |rs| == (if |cs| < |s| then |cs| else |s|)
    ensures left == if head then s[|rs|..] else s[..|s| - |rs|]
    ensures InTurn(rs, cs, s, head)
  {
    hide Heads, Tails;
    if head { HeadPops(rs, ws, s, left, 0); } else { TailPops(rs, ws, s, left, 0); }
    assert |Clients(rs)| == |rs|;
    hide Clients, FromHead, AllGave;
    forall i | 0 <= i < |rs| ensures rs[i] == Gave(cs[i], s[if head then i else |s| - 1 - i]) {
      PopAt(rs, ws, head, s, left, cs, i);
    }
  }

  lemma Ends(s: seq<Elem>, left: seq<Elem>, a: seq<Elem>, b: seq<Elem>)
    requires a + left + b == s
    ensures a == s[..|a|] && b == s[|s| - |b|..] && left == s[|a|..|s| - |b|]
  {
  }

  lemma {:induction false} NothingPushed(rs: seq<Reply>, ws: Waits, x: Key)
    requires AllGave(rs)
    ensures Pushes(rs, ws, x) == []
    decreases |rs|
  {
    if rs != [] {
      assert rs[0] in rs && forall r | r in rs[1..] :: r in rs;
      NothingPushed(rs[1..], ws, x);
    }
  }

  /** Nothing was moved, so only the list at the key changed. */
  lemma NoPushes(rs: seq<Reply>, ws: Waits, key: Key, store: map<Key, Obj>, store': map<Key, Obj>)
    requires AllGave(rs) && OthersGot(store, store', key, rs, ws) && key in store' && store'[key].List?
    ensures store' == store[key := store'[key]]
  {
    hide Pushes;
    forall x | x != key
      ensures (x in store' <==> x in store) && (x in store ==> store'[x] == store[x])
    {
      NothingPushed(rs, ws, x);
      assert [] + ListAt(store, x) == ListAt(store, x);
    }
  }

  // ---- BRPOPLPUSH ----

  /** The clients of the key's queue that wait for a list move elements to the list at x. */
  ghost predicate AllMove(st: State, key: Key, x: Key) {
    forall c | c in Queue(st, key) && c in st.waits && st.waits[c].kind == OnList ::
      st.waits[c].target == Some(x) && !st.waits[c].head
  }

  lemma {:induction false} MovedAlong(rs: seq<Reply>, ws: Waits, x: Key)
    requires forall r | r in rs :: MovedAt(r, ws, x) && !FromHead(r, ws)
    ensures Heads(rs, ws) == [] && Tails(rs, ws) == Pushes(rs, ws, x) && |Tails(rs, ws)| == |rs|
    decreases |rs|
  {
    if rs != [] {
      assert rs[0] in rs && forall r | r in rs[1..] :: r in rs;
      MovedAlong(rs[1..], ws, x);
    }
  }

  /** BRPOPLPUSH clients move the end of one list, in its order, before the other: the two lists one after the other are
      the same as before. */
  lemma MovesKeepOrder(st: State, key: Key, n: nat, l: seq<Key>, x: Key) returns (rs: seq<Reply>)
    requires Good(st, l, Some(key)) && key in st.store && st.store[key].List? && AllMove(st, key, x)
    requires x != key && !Wrong(st.store, x)
    requires n > 0 ==> key in st.blocking && n <= |st.blocking[key]|
    ensures var st' := ServeList(st, key, n, l); var cs := Among(Queue(st, key)[..n], st.waits, OnList, true);
      var s := st.store[key].elems;
      && st'.replies == st.replies + rs && |rs| == (if |cs| < |s| then |cs| else |s|) && Clients(rs) == cs[..|rs|]
      && ListAt(st'.store, key) + ListAt(st'.store, x) == s + ListAt(st.store, x)
      && |ListAt(st'.store, key)| == |s| - |rs|
  {
    hide ServeList, Good, Queue, Among, AllMove, Heads, Tails, Pushes;
    assert Recorded(Queue(st, key), st.waits, key, st.waits) by { MoveRecorded(st, key, x); }
    rs := ServeListDeals(st, key, n, l, st.waits);
    var first := ServedFirst(st, key, n, l);
    SameReplies(st.replies, first, rs);
    var st' := ServeList(st, key, n, l);
    AllMovedHere(st, key, x, rs);
    MovedAlong(rs, st.waits, x);
    MovesAre(ListAt(st.store, key), ListAt(st.store, x), ListAt(st'.store, key), Tails(rs, st.waits));
  }

  lemma MoveRecorded(st: State, key: Key, x: Key)
    requires AllMove(st, key, x) && x != key
    ensures Recorded(Queue(st, key), st.waits, key, st.waits)
  {
  }

  lemma AllMovedHere(st: State, key: Key, x: Key, rs: seq<Reply>)
    requires AllMove(st, key, x) && AllWait(st, key, rs) && !Wrong(st.store, x)
    requires forall r | r in rs :: Fits(r, st.waits, st.store)
    ensures forall r | r in rs :: MovedAt(r, st.waits, x) && !FromHead(r, st.waits)
  {
    hide Queue, Wrong;
    forall r | r in rs ensures MovedAt(r, st.waits, x) && !FromHead(r, st.waits) { assert Waited(st, key, r); }
  }

  lemma MovesAre(s: seq<Elem>, dst: seq<Elem>, left: seq<Elem>, moved: seq<Elem>)
    requires [] + left + moved == s
    ensures left + (moved + dst) == s + dst && |left| == |s| - |moved|
  {
  }

  // ---- sorted sets ----

  function SetAt(store: map<Key, Obj>, x: Key): seq<Elem> {
    if x in store && store[x].ZSet? then store[x].elems else []
  }

  /** One client: BZPOPMIN takes the first element, BZPOPMAX the last; the set is gone with its last element. */
  lemma PoppedOne(st: State, key: Key, c: Client) returns (v: Elem, left: seq<Elem>)
    requires c in st.waits && key in st.store && st.store[key].ZSet? && st.store[key].elems != []
    ensures st.store[key].elems == if st.waits[c].head then [v] + left else left + [v]
    ensures var st' := PopOne(st, key, c);
      && st'.replies == st.replies + [Gave(c, v)]
      && st'.store == if left == [] then st.store - {key} else st.store[key := ZSet(left)]
  {
    var s, w := st.store[key].elems, st.waits[c];
    hide Unblock;
    UnblockKeeps(st, c);
    v, left := Taken(s, w.head), Left(s, w.head);
    if w.head { assert s == [s[0]] + s[1..]; } else { assert s == s[..|s| - 1] + [s[|s| - 1]]; }
  }

  /** What the replies say became of the sorted set. */
  ghost predicate DealtSet(store: map<Key, Obj>, store': map<Key, Obj>, key: Key, rs: seq<Reply>, ws: Waits) {
    && Heads(rs, ws) + SetAt(store', key) + Tails(rs, ws) == SetAt(store, key)
    && store' - {key} == store - {key} && AllGave(rs)
  }

  lemma SetDealtJoin(s0: map<Key, Obj>, s1: map<Key, Obj>, s2: map<Key, Obj>, key: Key, r: Reply, rs: seq<Reply>,
                     ws: Waits)
    requires DealtSet(s0, s1, key, [r], ws) && DealtSet(s1, s2, key, rs, ws)
    ensures DealtSet(s0, s2, key, [r] + rs, ws)
  {
    hide Heads, Tails, SetAt;
    HeadsJoin(r, rs, ws, key);
    var a, b, c, d, e := Heads([r], ws), Heads(rs, ws), SetAt(s2, key), Tails(rs, ws), Tails([r], ws);
    assert a + b + c + (d + e) == a + (b + c + d) + e;
    assert r in [r];
  }

  lemma SetTaken(store: map<Key, Obj>, key: Key, r: Reply, left: seq<Elem>, ws: Waits)
    requires key in store && store[key].ZSet? && r.Gave? && r.client in ws
    requires store[key].elems == if ws[r.client].head then [r.elem] + left else left + [r.elem]
    ensures DealtSet(store, if left == [] then store - {key} else store[key := ZSet(left)], key, [r], ws)
  {
    hide Heads, Tails;
    OneElem(r, ws, key);
    assert [r.elem] + left + [] == [r.elem] + left && [] + left + [r.elem] == left + [r.elem];
    assert store[key := ZSet(left)] - {key} == store - {key} == store - {key} - {key};
  }

  lemma OneSetDealt(st: State, key: Key, c: Client, ws: Waits) returns (r: Reply)
    requires c in st.waits && key in st.store && st.store[key].ZSet? && st.store[key].elems != []
    requires c in ws && ws[c] == st.waits[c]
    ensures var st' := PopOne(st, key, c);
      st'.replies == st.replies + [r] && r.client == c && DealtSet(st.store, st'.store, key, [r], ws)
  {
    hide PopOne, DealtSet;
    var v, left := PoppedOne(st, key, c);
    r := Gave(c, v);
    SetTaken(st.store, key, r, left, ws);
  }

  ghost predicate RecordedSet(q: seq<Client>, waits: Waits, ws: Waits) {
    forall c | c in q && c in waits :: c in ws && ws[c] == waits[c]
  }

  /** One round of the loop over the clients of a sorted set. */
  lemma SetRound(st: State, key: Key, n: nat, l: seq<Key>)
    requires Good(st, l, Some(key)) && key in st.store && st.store[key].ZSet? && st.store[key].elems != []
    requires n > 0 && key in st.blocking && n <= |st.blocking[key]|
    ensures st.blocking[key] != [] && st.blocking[key][0] in st.waits
    ensures var c := st.blocking[key][0];
      if st.waits[c].kind != OnZSet then
        var st1 := Rotate(st, key);
        && Good(st1, l, Some(key)) && st1.store == st.store && |st1.blocking[key]| == |st.blocking[key]|
        && ServeZSet(st, key, n, l) == ServeZSet(st1, key, n - 1, l)
      else
        var st1 := PopOne(st, key, c);
        && Good(st1, l, Some(key)) && (key in st1.store ==> st1.store[key].ZSet? && st1.store[key].elems != [])
        && st1.waits == st.waits - {c}
        && (if |st.blocking[key]| == 1 then key !in st1.blocking
            else key in st1.blocking && st1.blocking[key] == st.blocking[key][1..])
        && ServeZSet(st, key, n, l) == ServeZSet(st1, key, n - 1, l)
  {
    hide Good, PopOne, Indexed, NoDup;
    var c := st.blocking[key][0];
    FirstWaits(st, l, Some(key), key);
    RotateGood(st, l, Some(key), key, {});
    if st.waits[c].kind == OnZSet { PopOneGood(st, l, key, c, {}); }
  }

  /** Serving a sorted set: what clients got, from whichever end, and what is left make up what was there. */
  lemma {:induction false} ServeZSetDeals(st: State, key: Key, n: nat, l: seq<Key>, ws: Waits) returns (rs: seq<Reply>)
    requires Good(st, l, Some(key)) && (key in st.store ==> st.store[key].ZSet? && st.store[key].elems != [])
    requires n > 0 ==> key in st.blocking && n <= |st.blocking[key]|
    requires RecordedSet(Queue(st, key), st.waits, ws)
    ensures var st' := ServeZSet(st, key, n, l);
      st'.replies == st.replies + rs && DealtSet(st.store, st'.store, key, rs, ws)
    decreases n
  {
    hide Good, PopOne, ServeZSet, Rotate, DealtSet, RecordedSet, Queue;
    rs := [];
    NoSetDealt(st, key, ws);
    RepliesJoin(st.replies, Gave(0, 0), []);
    NoRound(st, key, l);
    if n > 0 && key in st.store {
      SetRound(st, key, n, l);
      var c := st.blocking[key][0];
      var st1 := PopOne(st, key, c);
      SetRecorded(st, st1, key, ws);
      if st.waits[c].kind != OnZSet {
        rs := ServeZSetDeals(Rotate(st, key), key, n - 1, l, ws);
      } else {
        var r := OneSetDealt(st, key, c, ws);
        var more := ServeZSetDeals(st1, key, n - 1, l, ws);
        SetDealtJoin(st.store, st1.store, ServeZSet(st, key, n, l).store, key, r, more, ws);
        RepliesJoin(st.replies, r, more);
        rs := [r] + more;
      }
    }
  }

  lemma NoSetDealt(st: State, key: Key, ws: Waits)
    ensures DealtSet(st.store, st.store, key, [], ws)
  {
    assert [] + SetAt(st.store, key) + [] == SetAt(st.store, key);
  }

  lemma SetRecorded(st: State, st1: State, key: Key, ws: Waits)
    requires key in st.blocking && st.blocking[key] != [] && RecordedSet(Queue(st, key), st.waits, ws)
    requires st.blocking[key][0] in st.waits
    ensures st.blocking[key][0] in ws && ws[st.blocking[key][0]] == st.waits[st.blocking[key][0]]
    ensures Rotate(st, key).replies == st.replies && key in Rotate(st, key).blocking
    ensures RecordedSet(Queue(Rotate(st, key), key), Rotate(st, key).waits, ws)
    ensures st1.waits == st.waits - {st.blocking[key][0]}
            && (key in st1.blocking ==> st1.blocking[key] == st.blocking[key][1..]) ==>
              RecordedSet(Queue(st1, key), st1.waits, ws)
  {
    assert st.blocking[key][0] in st.blocking[key];
  }

  // ---- which key comes first ----

  /** Replies are only ever added. */
  lemma KeyReplies(st: State, key: Key, l: seq<Key>)
    requires Good(st, [key] + l, None)
    ensures st.replies <= ServeKey(st, key, l).replies
  {
    hide Good, ServeList, ServeZSet, Visited, InOrder;
    TakeGood(st, key, l, {});
    var st0 := st.(readySet := st.readySet - {key});
    var n := if key in st.blocking then |st.blocking[key]| else 0;
    SameVisited(st, st0, key, n);
    if key in st.store && st.store[key].List? {
      ServeListDone(st0, key, n, l, {});
      ServeListInOrder(st0, key, n, l);
      OrderReplies(st0, ServeList(st0, key, n, l), key, ListStop(st0, key, n), OnList);
    } else if key in st.store && st.store[key].ZSet? {
      ServeZSetInOrder(st0, key, n, l);
      OrderReplies(st0, ServeZSet(st0, key, n, l), key, ZSetStop(st0, key, n), OnZSet);
    }
  }

  lemma OrderReplies(st: State, st': State, key: Key, p: nat, kind: Kind)
    requires InOrder(st, st', key, p, kind)
    ensures st.replies <= st'.replies
  {
  }

  lemma {:induction false} DrainReplies(st: State, l: seq<Key>)
    requires Good(st, l, None)
    ensures st.replies <= Drain(st, l).replies
    decreases |l|
  {
    hide Good, ServeKey;
    if l != [] {
      DrainStep(st, l, {});
      KeyReplies(st, l[0], l[1..]);
      DrainReplies(ServeKey(st, l[0], l[1..]), l[1..]);
    }
  }

  lemma {:induction false} HandleReplies(st: State)
    requires Good(st, [], None)
    ensures st.replies <= Handle(st).replies
    decreases |st.waits.Keys|, |st.ready|
  {
    hide Good, Drain;
    if st.ready != [] {
      RoundShrinks(st, {});
      DrainReplies(st.(ready := []), st.ready);
      HandleReplies(Drain(st.(ready := []), st.ready));
    }
  }

  /** Keys become ready behind those that are ready already, each once. */
  lemma ReadyBehind(st: State, e: Event)
    requires Good(st, [], None) && Enabled(st, e) && !e.Serves?
    ensures var st' := Step(st, e);
      && st.ready <= st'.ready
      && (st'.ready != st.ready ==>
            e.Creates? && e.key in st.blocking && e.key !in st.readySet && st'.ready == st.ready + [e.key])
    ensures e.Creates? && !e.obj.Other? && e.key in st.blocking ==> e.key in Step(st, e).ready
  {
    if e.Creates? && e.key in st.readySet { assert e.key in st.ready; }
  }

  /** A list that is not empty serves the first client that waits for it. */
  lemma {:induction false} StopPastFirst(q: seq<Client>, waits: Waits, store: map<Key, Obj>, key: Key, room: nat)
    requires room > 0 && Among(q, waits, OnList, true) != []
    ensures var a := Among(q[..Stop(q, waits, store, key, room)], waits, OnList, true);
      a != [] && a[0] == Among(q, waits, OnList, true)[0]
    decreases |q|
  {
    var p := Stop(q, waits, store, key, room);
    assert p > 0 && q[..p][0] == q[0] && q[..p][1..] == q[1..][..p - 1];
    if q[0] !in waits || waits[q[0]].kind != OnList { StopPastFirst(q[1..], waits, store, key, room); }
  }

  lemma FirstServed(st: State, key: Key, l: seq<Key>)
    requires Good(st, l, Some(key)) && key in st.store && st.store[key].List? && st.store[key].elems != []
    requires key in st.blocking && Among(st.blocking[key], st.waits, OnList, true) != []
    ensures var st' := ServeList(st, key, |st.blocking[key]|, l);
      && st.replies < st'.replies
      && st'.replies[|st.replies|].client == Among(st.blocking[key], st.waits, OnList, true)[0]
  {
    var q := st.blocking[key];
    var p := ListStop(st, key, |q|);
    assert q[..|q|] == q;
    ServeListInOrder(st, key, |q|, l);
    StopPastFirst(q, st.waits, st.store, key, |st.store[key].elems|);
    var st' := ServeList(st, key, |q|, l);
    hide ServeList, Good, Stop, Among;
    assert Clients(st'.replies[|st.replies|..])[0] == st'.replies[|st.replies|].client;
  }

  /** The first reply goes to the first client that waits for a list at the key that became ready first. */
  lemma FirstReady(st: State)
    requires Good(st, [], None) && st.ready != []
    requires var k := st.ready[0];
      && k in st.store && st.store[k].List? && k in st.blocking && Among(st.blocking[k], st.waits, OnList, true) != []
    ensures var k := st.ready[0];
      && st.replies < Handle(st).replies
      && Handle(st).replies[|st.replies|].client == Among(st.blocking[k], st.waits, OnList, true)[0]
  {
    var k, l, st0 := st.ready[0], st.ready[1..], st.(ready := []);
    assert st.store[k].elems != [];
    hide Good, ServeList, Drain, Among, Handle;
    TakeList(st, {});
    DrainStep(st0, st.ready, {});
    TakeGood(st0, k, l, {});
    var st1 := st0.(readySet := st0.readySet - {k});
    FirstServed(st1, k, l);
    FirstKey(st0, k, l);
    RoundShrinks(st, {});
    DrainReplies(ServeKey(st0, k, l), l);
    FirstDrained(st0, st.ready);
    HandleReplies(Drain(st0, st.ready));
    HandleIs(st);
  }

  lemma FirstKey(st: State, k: Key, l: seq<Key>)
    requires Good(st, [k] + l, None) && k in st.store && st.store[k].List? && k in st.blocking
    ensures var st1 := st.(readySet := st.readySet - {k});
      Good(st1, l, Some(k)) && ServeKey(st, k, l).replies == ServeList(st1, k, |st.blocking[k]|, l).replies
  {
    TakeGood(st, k, l, {});
    hide Good, ServeList;
  }

  lemma FirstDrained(st: State, l: seq<Key>)
    requires l != [] && Good(st, l, None)
    ensures Good(st, [l[0]] + l[1..], None) && Good(ServeKey(st, l[0], l[1..]), l[1..], None)
    ensures Drain(st, l) == Drain(ServeKey(st, l[0], l[1..]), l[1..])
  {
    hide Good, ServeKey;
    DrainStep(st, l, {});
  }

  lemma HandleIs(st: State)
    requires Good(st, [], None) && st.ready != []
    ensures Good(st.(ready := []), st.ready, None) && Good(Drain(st.(ready := []), st.ready), [], None)
    ensures Handle(st) == Handle(Drain(st.(ready := []), st.ready))
  {
    hide Good, Drain;
    RoundShrinks(st, {});
  }
}
