/** Clients blocked on keys: who waits for what, which keys are ready, and how src/blocked.c serves the waiting
    clients, including BRPOPLPUSH, whose push can make further keys ready. */
module Blocked {
  import opened Options

  type Key = nat
  type Client = nat
  type Elem = nat

  datatype Kind = OnList | OnZSet | OnStream

  /** What a blocked client waits for: `bpop.keys`, `bpop.target`, and which end it pops. */
  datatype Wait = Wait(kind: Kind, keys: set<Key>, target: Option<Key>, head: bool)

  /** A list; a sorted set, its elements by score; anything else. */
  datatype Obj = List(elems: seq<Elem>) | ZSet(elems: seq<Elem>) | Other

  datatype Reply = Gave(client: Client, elem: Elem) | Moved(client: Client, elem: Elem) | WrongType(client: Client)

  /** `blocking` is db->blocking_keys, `ready` server.ready_keys and `readySet` db->ready_keys. */
  datatype State = State(
    blocking: map<Key, seq<Client>>,
    waits: map<Client, Wait>,
    ready: seq<Key>,
    readySet: set<Key>,
    store: map<Key, Obj>,
    replies: seq<Reply>)

  // ---- sequences without repetition ----

  ghost predicate NoDup<T>(s: seq<T>) { forall i, j | 0 <= i < j < |s| :: s[i] != s[j] }

  /** Delete the first occurrence. */
  function Del(s: seq<Client>, c: Client): seq<Client> {
    if s == [] then [] else if s[0] == c then s[1..] else [s[0]] + Del(s[1..], c)
  }

  lemma {:induction false} DelFacts(s: seq<Client>, c: Client, x: Client)
    requires NoDup(s)
    ensures NoDup(Del(s, c)) && (x in Del(s, c) <==> x in s && x != c)
    ensures |Del(s, c)| == if c in s then |s| - 1 else |s|
    decreases |s|
  {
    if s != [] && s[0] != c {
      DelFacts(s[1..], c, x);
      DelFacts(s[1..], c, s[0]);
      assert forall i | 1 <= i < |s| :: s[i] == s[1..][i - 1];
    }
  }

  // ---- operations ----

  /** `unblockClientWaitingData`: the client leaves every waiting list; empty lists are removed. */
  function Unblock(st: State, c: Client): State
    requires c in st.waits
  {
    st.(blocking := map k | k in st.blocking && Rest(st, c, k) != [] :: Rest(st, c, k),
        waits := st.waits - {c})
  }

  function Rest(st: State, c: Client, k: Key): seq<Client>
    requires c in st.waits && k in st.blocking
  {
    if k in st.waits[c].keys then Del(st.blocking[k], c) else st.blocking[k]
  }

  /** `signalKeyAsReady`. */
  function Signal(st: State, k: Key): State {
    if k !in st.blocking || k in st.readySet then st
    else st.(ready := st.ready + [k], readySet := st.readySet + {k})
  }

  /** `rpoplpushHandlePush`: a new list is signalled by `dbAdd`; an existing one is not. */
  function PushTo(st: State, k: Key, v: Elem): State
    requires k in st.store ==> st.store[k].List?
  {
    if k in st.store then st.(store := st.store[k := List([v] + st.store[k].elems)])
    else
      var st1 := Signal(st, k);
      st1.(store := st1.store[k := List([v])])
  }

  /** The element a pop takes and what it leaves. */
  function Taken(s: seq<Elem>, head: bool): Elem
    requires s != []
  {
    if head then s[0] else s[|s| - 1]
  }

  function Left(s: seq<Elem>, head: bool): seq<Elem>
    requires s != []
  {
    if head then s[1..] else s[..|s| - 1]
  }

  function Back(s: seq<Elem>, head: bool, v: Elem): seq<Elem> { if head then [v] + s else s + [v] }

  /** Pop for client c from the list at key and hand the element over (`serveClientBlockedOnList`): to the client,
      or to the target list; when the target holds another type, it is pushed back where it was. */
  function ServeOne(st: State, key: Key, c: Client): State
    requires c in st.waits && key in st.store && st.store[key].List? && st.store[key].elems != []
  {
    var w, s := st.waits[c], st.store[key].elems;
    var v := Taken(s, w.head);
    var st1 := Unblock(st.(store := st.store[key := List(Left(s, w.head))]), c);
    if w.target.None? then st1.(replies := st1.replies + [Gave(c, v)])
    else if w.target.value in st1.store && !st1.store[w.target.value].List? then
      st1.(store := st1.store[key := List(Back(Left(s, w.head), w.head, v))], replies := st1.replies + [WrongType(c)])
    else
      var st2 := PushTo(st1, w.target.value, v);
      st2.(replies := st2.replies + [Moved(c, v)])
  }

  /** Move the first waiting client to the end. */
  function Rotate(st: State, key: Key): State
    requires key in st.blocking && st.blocking[key] != []
  {
    st.(blocking := st.blocking[key := st.blocking[key][1..] + [st.blocking[key][0]]])
  }

  // ---- invariants ----

  /** Clients and keys index each other: a client is in a key's list once if the key is among its own, else not. */
  ghost predicate Indexed(st: State) {
    && (forall k | k in st.blocking :: st.blocking[k] != [] && NoDup(st.blocking[k]))
    && (forall k, c | k in st.blocking && c in st.blocking[k] :: c in st.waits && k in st.waits[c].keys)
    && (forall c, k | c in st.waits && k in st.waits[c].keys :: k in st.blocking && c in st.blocking[k])
    && (forall c | c in st.waits :: st.waits[c].keys != {})
  }

  /** The ready list and the ready dictionary hold the same keys; `l` are those taken off the list but not served. */
  ghost predicate ReadyAgree(st: State, l: seq<Key>) {
    NoDup(l + st.ready) && (forall k :: k in st.readySet <==> k in l || k in st.ready)
  }

  /** The client waits for what the object is. */
  predicate Matches(o: Obj, w: Wait) { (o.List? && w.kind == OnList) || (o.ZSet? && w.kind == OnZSet) }

  /** Nobody waits for elements that are there, except on ready keys, on the keys m and on key x. */
  ghost predicate NobodyStarves(st: State, x: Option<Key>, m: set<Key>) {
    forall k, c | k in st.store && k in st.blocking && c in st.blocking[k] && c in st.waits
                  && k !in st.readySet && k !in m && x != Some(k) && !st.store[k].Other? && st.store[k].elems != [] ::
      !Matches(st.store[k], st.waits[c])
  }

  // ---- unblocking ----

  lemma UnblockAt(st: State, c: Client, k: Key)
    requires Indexed(st) && c in st.waits && k in st.blocking
    ensures NoDup(Rest(st, c, k)) && c !in Rest(st, c, k)
    ensures forall x :: x in Rest(st, c, k) <==> x in st.blocking[k] && x != c
    ensures |Rest(st, c, k)| == |st.blocking[k]| - if k in st.waits[c].keys then 1 else 0
  {
    forall x ensures x in Rest(st, c, k) <==> x in st.blocking[k] && x != c {
      DelFacts(st.blocking[k], c, x);
    }
    DelFacts(st.blocking[k], c, c);
  }

  lemma UnblockIndexed(st: State, c: Client)
    requires Indexed(st) && c in st.waits
    ensures Indexed(Unblock(st, c))
  {
    var st' := Unblock(st, c);
    forall k | k in st.blocking
      ensures NoDup(Rest(st, c, k)) && forall x :: x in Rest(st, c, k) <==> x in st.blocking[k] && x != c
    {
      UnblockAt(st, c, k);
    }
    hide Rest;
    forall x, k | x in st'.waits && k in st'.waits[x].keys ensures k in st'.blocking && x in st'.blocking[k] {
      assert x in Rest(st, c, k);
    }
  }

  /** No empty list or sorted set is stored, except at key x. */
  ghost predicate NoHollow(st: State, x: Option<Key>) {
    forall k | k in st.store && x != Some(k) && !st.store[k].Other? :: st.store[k].elems != []
  }

  /** What holds between any two operations, while key x is being served and keys l are still to be. */
  ghost predicate Good(st: State, l: seq<Key>, x: Option<Key>) {
    Indexed(st) && ReadyAgree(st, l) && NoHollow(st, x)
  }

  /** Serving makes progress: clients only leave, and keys become ready only when one does. */
  ghost predicate Onward(st: State, st': State) {
    st'.waits.Keys <= st.waits.Keys && (st'.waits.Keys == st.waits.Keys ==> st'.ready == st.ready)
  }

  lemma UnblockGood(st: State, c: Client, l: seq<Key>, x: Option<Key>, m: set<Key>)
    requires Good(st, l, x) && c in st.waits
    ensures Good(Unblock(st, c), l, x) && (NobodyStarves(st, x, m) ==> NobodyStarves(Unblock(st, c), x, m))
  {
    UnblockIndexed(st, c);
    var st' := Unblock(st, c);
    forall k, d | k in st'.blocking && d in st'.blocking[k] ensures d in st.blocking[k] && d in st.waits {
      UnblockAt(st, c, k);
    }
    hide Rest, Indexed;
  }

  /** Changing the object at the served key. */
  lemma StoreGood(st: State, l: seq<Key>, key: Key, o: Obj, m: set<Key>)
    requires Good(st, l, Some(key))
    ensures Good(st.(store := st.store[key := o]), l, Some(key))
    ensures NobodyStarves(st, Some(key), m) ==> NobodyStarves(st.(store := st.store[key := o]), Some(key), m)
  {
  }

  lemma SignalGood(st: State, l: seq<Key>, x: Option<Key>, k: Key, m: set<Key>)
    requires Good(st, l, x)
    ensures Good(Signal(st, k), l, x) && (k in st.blocking ==> k in Signal(st, k).readySet)
    ensures NobodyStarves(st, x, m) ==> NobodyStarves(Signal(st, k), x, m)
  {
    var st' := Signal(st, k);
    if st' != st {
      assert l + st'.ready == l + st.ready + [k];
      assert forall i | 0 <= i < |l + st.ready| :: (l + st.ready)[i] in l || (l + st.ready)[i] in st.ready;
    }
  }

  lemma PushGood(st: State, l: seq<Key>, key: Key, t: Key, v: Elem, m: set<Key>)
    requires Good(st, l, Some(key)) && (t in st.store ==> st.store[t].List?)
    ensures Good(PushTo(st, t, v), l, Some(key))
    ensures NobodyStarves(st, Some(key), m) ==> NobodyStarves(PushTo(st, t, v), Some(key), m)
  {
    if t !in st.store { SignalGood(st, l, Some(key), t, m); }
    hide Indexed, ReadyAgree;
  }

  lemma ServeOneGood(st: State, l: seq<Key>, key: Key, c: Client, m: set<Key>)
    requires Good(st, l, Some(key)) && c in st.waits && key in st.store && st.store[key].List?
        && st.store[key].elems != []
    ensures Good(ServeOne(st, key, c), l, Some(key))
    ensures NobodyStarves(st, Some(key), m) ==> NobodyStarves(ServeOne(st, key, c), Some(key), m)
  {
    hide Good, NobodyStarves, Unblock, PushTo, Taken, Left, Back;
    var w, s := st.waits[c], st.store[key].elems;
    var v := Taken(s, w.head);
    var st0 := st.(store := st.store[key := List(Left(s, w.head))]);
    StoreGood(st, l, key, List(Left(s, w.head)), m);
    UnblockGood(st0, c, l, Some(key), m);
    var st1 := Unblock(st0, c);
    UnblockKeeps(st0, c);
    if w.target.None? {
      ReplyGood(st1, l, Some(key), Gave(c, v), m);
    } else if w.target.value in st1.store && !st1.store[w.target.value].List? {
      var back := List(Back(Left(s, w.head), w.head, v));
      StoreGood(st1, l, key, back, m);
      ReplyGood(st1.(store := st1.store[key := back]), l, Some(key), WrongType(c), m);
    } else {
      PushGood(st1, l, key, w.target.value, v, m);
      ReplyGood(PushTo(st1, w.target.value, v), l, Some(key), Moved(c, v), m);
    }
  }

  lemma UnblockKeeps(st: State, c: Client)
    requires c in st.waits
    ensures Unblock(st, c).store == st.store && Unblock(st, c).replies == st.replies
    ensures Unblock(st, c).waits == st.waits - {c} && Unblock(st, c).ready == st.ready
        && Unblock(st, c).readySet == st.readySet
  {
  }

  lemma ReplyGood(st: State, l: seq<Key>, x: Option<Key>, r: Reply, m: set<Key>)
    requires Good(st, l, x)
    ensures Good(st.(replies := st.replies + [r]), l, x)
    ensures NobodyStarves(st, x, m) ==> NobodyStarves(st.(replies := st.replies + [r]), x, m)
  {
  }

  lemma RotateGood(st: State, l: seq<Key>, x: Option<Key>, key: Key, m: set<Key>)
    requires Good(st, l, x) && key in st.blocking
    ensures st.blocking[key] != [] && Good(Rotate(st, key), l, x)
    ensures |Rotate(st, key).blocking[key]| == |st.blocking[key]|
    ensures NobodyStarves(st, x, m) ==> NobodyStarves(Rotate(st, key), x, m)
  {
    var s := st.blocking[key];
    var s' := s[1..] + [s[0]];
    assert forall c :: c in s' <==> c in s by {
      assert s == [s[0]] + s[1..];
    }
    assert NoDup(s');
    hide ReadyAgree;
  }

  // ---- serving one key ----

  /** Serve up to n clients waiting on the list at `key`, first come first served; clients waiting for another type
      go to the end. Stops when the list is empty. The waiting list lasts as long as there are clients to visit. */
  function ServeList(st: State, key: Key, n: nat, ghost l: seq<Key>): State
    requires Good(st, l, Some(key)) && key in st.store && st.store[key].List?
    requires n > 0 ==> key in st.blocking && n <= |st.blocking[key]|
    decreases n
  {
    if n == 0 then st
    else
      var c := st.blocking[key][0];
      assert c in st.blocking[key];
      if st.waits[c].kind != OnList then
        RotateGood(st, l, Some(key), key, {});
        ServeList(Rotate(st, key), key, n - 1, l)
      else if st.store[key].elems == [] then st
      else
        ServeOneGood(st, l, key, c, {});
        ServeOneFacts(st, key, c);
        ServeList(ServeOne(st, key, c), key, n - 1, l)
  }

  /** Serving a client takes it off the key's list, and keeps the list object. */
  lemma ServeOneFacts(st: State, key: Key, c: Client)
    requires Indexed(st) && c in st.waits && key in st.store && st.store[key].List? && st.store[key].elems != []
    requires key in st.blocking && st.blocking[key] != [] && c == st.blocking[key][0]
    ensures var st' := ServeOne(st, key, c);
      && key in st'.store && st'.store[key].List?
      && (if |st.blocking[key]| == 1 then key !in st'.blocking
          else key in st'.blocking && st'.blocking[key] == st.blocking[key][1..])
      && st'.waits == st.waits - {c} && (key !in st.readySet ==> key !in st'.readySet)
  {
    var st0 := st.(store := st.store[key := List(Left(st.store[key].elems, st.waits[c].head))]);
    UnblockFront(st0, key, c);
    hide Unblock, Indexed, Taken, Left, Back;
    UnblockKeeps(st0, c);
  }

  /** The first client of a queue leaves its front. */
  lemma UnblockFront(st: State, key: Key, c: Client)
    requires Indexed(st) && c in st.waits && key in st.blocking && st.blocking[key] != [] && c == st.blocking[key][0]
    ensures var st' := Unblock(st, c);
      if |st.blocking[key]| == 1 then key !in st'.blocking
      else key in st'.blocking && st'.blocking[key] == st.blocking[key][1..]
  {
    assert c in st.blocking[key] && Rest(st, c, key) == st.blocking[key][1..];
    hide Rest, Indexed;
  }

  /** The sorted set at `key`, one element per client. */
  function ServeZSet(st: State, key: Key, n: nat, ghost l: seq<Key>): State
    requires Good(st, l, Some(key)) && (key in st.store ==> st.store[key].ZSet? && st.store[key].elems != [])
    requires n > 0 ==> key in st.blocking && n <= |st.blocking[key]|
    decreases n
  {
    if n == 0 || key !in st.store then st
    else
      var c := st.blocking[key][0];
      assert c in st.blocking[key];
      if st.waits[c].kind != OnZSet then
        RotateGood(st, l, Some(key), key, {});
        ServeZSet(Rotate(st, key), key, n - 1, l)
      else
        PopOneGood(st, l, key, c, {});
        ServeZSet(PopOne(st, key, c), key, n - 1, l)
  }

  /** `genericZpopCommand` for an unblocked client: the least or greatest element; an empty set is deleted. */
  function PopOne(st: State, key: Key, c: Client): State
    requires c in st.waits && key in st.store && st.store[key].ZSet? && st.store[key].elems != []
  {
    var s, head := st.store[key].elems, st.waits[c].head;
    var st1 := Unblock(st, c);
    st1.(store := if |s| == 1 then st.store - {key} else st.store[key := ZSet(Left(s, head))],
         replies := st.replies + [Gave(c, Taken(s, head))])
  }

  lemma RemoveGood(st: State, l: seq<Key>, key: Key, m: set<Key>)
    requires Good(st, l, Some(key))
    ensures Good(st.(store := st.store - {key}), l, Some(key))
    ensures NobodyStarves(st, Some(key), m) ==> NobodyStarves(st.(store := st.store - {key}), Some(key), m)
  {
  }

  lemma PopOneGood(st: State, l: seq<Key>, key: Key, c: Client, m: set<Key>)
    requires Good(st, l, Some(key)) && c in st.waits && key in st.store && st.store[key].ZSet?
        && st.store[key].elems != []
    requires key in st.blocking && st.blocking[key] != [] && c == st.blocking[key][0]
    ensures var st' := PopOne(st, key, c);
      && Good(st', l, Some(key)) && (key in st'.store ==> st'.store[key].ZSet? && st'.store[key].elems != [])
      && (if |st.blocking[key]| == 1 then key !in st'.blocking
          else key in st'.blocking && st'.blocking[key] == st.blocking[key][1..])
      && st'.waits == st.waits - {c} && st'.readySet == st.readySet
      && (NobodyStarves(st, Some(key), m) ==> NobodyStarves(st', Some(key), m))
  {
    assert c in st.blocking[key] && Rest(st, c, key) == st.blocking[key][1..];
    UnblockGood(st, c, l, Some(key), m);
    var st1 := Unblock(st, c);
    hide NobodyStarves;
    var s, head := st.store[key].elems, st.waits[c].head;
    if |s| == 1 {
      RemoveGood(st1, l, key, m);
      ReplyGood(st1.(store := st.store - {key}), l, Some(key), Gave(c, Taken(s, head)), m);
    } else {
      StoreGood(st1, l, key, ZSet(Left(s, head)), m);
      ReplyGood(st1.(store := st.store[key := ZSet(Left(s, head))]), l, Some(key), Gave(c, Taken(s, head)), m);
    }
    hide Good, Indexed, Rest;
  }

  /** The clients from position n on wait for something else than kind. */
  ghost predicate Visited(st: State, key: Key, n: nat, kind: Kind) {
    key in st.blocking ==>
      forall i | n <= i < |st.blocking[key]| ::
          st.blocking[key][i] in st.waits && st.waits[st.blocking[key][i]].kind != kind
  }

  /** After serving, the list is empty or nobody waits for it any more. */
  lemma {:induction false} ServeListDone(st: State, key: Key, n: nat, l: seq<Key>, m: set<Key>)
    requires Good(st, l, Some(key)) && key in st.store && st.store[key].List?
    requires n > 0 ==> key in st.blocking && n <= |st.blocking[key]|
    requires Visited(st, key, n, OnList)
    ensures var st' := ServeList(st, key, n, l);
      && Good(st', l, Some(key)) && Onward(st, st') && key in st'.store && st'.store[key].List?
      && (st'.store[key].elems == [] || Visited(st', key, 0, OnList))
      && (key !in st.readySet ==> key !in st'.readySet)
      && (NobodyStarves(st, Some(key), m) ==> NobodyStarves(st', Some(key), m))
    decreases n
  {
    hide Good, NobodyStarves, ServeOne, Visited, Rotate;
    if n > 0 {
      var c := st.blocking[key][0];
      FirstWaits(st, l, Some(key), key);
      if st.waits[c].kind != OnList {
        RotateGood(st, l, Some(key), key, m);
        RotateVisited(st, key, n, OnList);
        ServeListDone(Rotate(st, key), key, n - 1, l, m);
      } else if st.store[key].elems != [] {
        var st1 := ServeOne(st, key, c);
        ServeOneGood(st, l, key, c, m);
        ServeOneFacts(st, key, c);
        ServedVisited(st, st1, key, n, OnList);
        ServeListDone(st1, key, n - 1, l, m);
        assert c !in st1.waits.Keys;
      }
    }
  }

  lemma FirstWaits(st: State, l: seq<Key>, x: Option<Key>, key: Key)
    requires Good(st, l, x) && key in st.blocking
    ensures Indexed(st) && st.blocking[key] != [] && NoDup(st.blocking[key]) && st.blocking[key][0] in st.waits
  {
    assert st.blocking[key][0] in st.blocking[key];
  }

  lemma RotateVisited(st: State, key: Key, n: nat, kind: Kind)
    requires Visited(st, key, n, kind) && n > 0 && key in st.blocking && 0 < n <= |st.blocking[key]|
    requires st.blocking[key][0] in st.waits && st.waits[st.blocking[key][0]].kind != kind
    ensures Visited(Rotate(st, key), key, n - 1, kind)
    ensures var st' := Rotate(st, key);
      st'.waits == st.waits && st'.ready == st.ready && st'.store == st.store && st'.readySet == st.readySet
          && key in st'.blocking
  {
  }

  lemma ServedVisited(st: State, st': State, key: Key, n: nat, kind: Kind)
    requires Indexed(st) && Visited(st, key, n, kind) && n > 0 && key in st.blocking && st.blocking[key] != []
    requires st'.waits == st.waits - {st.blocking[key][0]}
    requires key in st'.blocking ==> st'.blocking[key] == st.blocking[key][1..]
    ensures Visited(st', key, n - 1, kind)
  {
    assert NoDup(st.blocking[key]);
  }

  /** After serving, the sorted set is gone or nobody waits for it any more. */
  lemma {:induction false} ServeZSetDone(st: State, key: Key, n: nat, l: seq<Key>, m: set<Key>)
    requires Good(st, l, Some(key)) && (key in st.store ==> st.store[key].ZSet? && st.store[key].elems != [])
    requires n > 0 ==> key in st.blocking && n <= |st.blocking[key]|
    requires Visited(st, key, n, OnZSet)
    ensures var st' := ServeZSet(st, key, n, l);
      && Good(st', l, Some(key)) && Onward(st, st')
      && (key in st'.store ==> st'.store[key].ZSet? && st'.store[key].elems != [] && Visited(st', key, 0, OnZSet))
      && (key !in st.readySet ==> key !in st'.readySet)
      && (NobodyStarves(st, Some(key), m) ==> NobodyStarves(st', Some(key), m))
    decreases n
  {
    hide Good, NobodyStarves, PopOne, Visited, Rotate;
    if n > 0 && key in st.store {
      var c := st.blocking[key][0];
      FirstWaits(st, l, Some(key), key);
      if st.waits[c].kind != OnZSet {
        RotateGood(st, l, Some(key), key, m);
        RotateVisited(st, key, n, OnZSet);
        ServeZSetDone(Rotate(st, key), key, n - 1, l, m);
      } else {
        var st1 := PopOne(st, key, c);
        PopOneGood(st, l, key, c, m);
        ServedVisited(st, st1, key, n, OnZSet);
        ServeZSetDone(st1, key, n - 1, l, m);
        assert c !in st1.waits.Keys;
      }
    }
  }

  // ---- in which order clients are served ----

  /** The clients of s that wait for `kind` (or, for the others, do not), in their order. */
  function Among(s: seq<Client>, waits: map<Client, Wait>, kind: Kind, yes: bool): seq<Client> {
    if s == [] then []
    else (if s[0] in waits && (waits[s[0]].kind == kind) == yes then [s[0]] else []) + Among(s[1..], waits, kind, yes)
  }

  lemma {:induction false} AmongJoin(s: seq<Client>, t: seq<Client>, waits: map<Client, Wait>, kind: Kind, yes: bool)
    ensures Among(s + t, waits, kind, yes) == Among(s, waits, kind, yes) + Among(t, waits, kind, yes)
    decreases |s|
  {
    if s == [] {
      assert s + t == t;
    } else {
      assert (s + t)[1..] == s[1..] + t;
      AmongJoin(s[1..], t, waits, kind, yes);
    }
  }

  /** A client that is not in s does not matter, nor does one that waits for `kind` matter to the others. */
  lemma {:induction false} AmongWithout(s: seq<Client>, waits: map<Client, Wait>, c: Client, kind: Kind, yes: bool)
    requires c !in s || (c in waits && waits[c].kind == kind && !yes)
    ensures Among(s, waits - {c}, kind, yes) == Among(s, waits, kind, yes)
    decreases |s|
  {
    if s != [] { AmongWithout(s[1..], waits, c, kind, yes); }
  }

  function Clients(rs: seq<Reply>): seq<Client> { seq(|rs|, (i: nat) requires i < |rs| => rs[i].client) }

  /** What happened between two states: some replies were added. */
  ghost predicate Replied(st: State, st': State, served: seq<Client>) {
    st.replies <= st'.replies && Clients(st'.replies[|st.replies|..]) == served
  }

  lemma RepliedOne(st: State, st': State, r: Reply)
    requires st'.replies == st.replies + [r]
    ensures Replied(st, st', [r.client])
  {
    assert st'.replies[|st.replies|..] == [r];
  }

  lemma RepliedJoin(st: State, st1: State, st2: State, a: seq<Client>, b: seq<Client>)
    requires Replied(st, st1, a) && Replied(st1, st2, b)
    ensures Replied(st, st2, a + b)
  {
    var more := st2.replies[|st.replies|..];
    assert more == st1.replies[|st.replies|..] + st2.replies[|st1.replies|..];
  }

  ghost function Queue(st: State, key: Key): seq<Client> { if key in st.blocking then st.blocking[key] else [] }

  /** What visiting the first p clients of a queue did: those waiting for `kind` were served in their order, the others
      went to the end. If nobody waits for anything else, the queue just lost its front. */
  ghost predicate InOrder(st: State, st': State, key: Key, p: nat, kind: Kind) {
    var b := Queue(st, key);
    && p <= |b| && Replied(st, st', Among(b[..p], st.waits, kind, true))
    && Among(Queue(st', key), st.waits, kind, false)
       == Among(b[p..], st.waits, kind, false) + Among(b[..p], st.waits, kind, false)
    && (Among(b, st.waits, kind, false) == [] ==> Queue(st', key) == b[p..])
  }

  lemma Untouched(st: State, key: Key, kind: Kind)
    ensures InOrder(st, st, key, 0, kind)
  {
    var b := Queue(st, key);
    assert b[0..] == b && b[..0] == [];
    assert st.replies[|st.replies|..] == [];
  }

  lemma ServeOneReply(st: State, key: Key, c: Client)
    requires c in st.waits && key in st.store && st.store[key].List? && st.store[key].elems != []
    ensures Replied(st, ServeOne(st, key, c), [c])
  {
    var st' := ServeOne(st, key, c);
    hide Unblock, Taken, Left, Back, Replied;
    UnblockKeeps(st.(store := st.store[key := List(Left(st.store[key].elems, st.waits[c].head))]), c);
    assert st'.replies == st.replies + [st'.replies[|st.replies|]] && st'.replies[|st.replies|].client == c;
    RepliedOne(st, st', st'.replies[|st.replies|]);
  }

  /** A client that waits for something else goes to the end. */
  lemma RotatedOrder(st: State, st': State, key: Key, p: nat, kind: Kind)
    requires key in st.blocking && st.blocking[key] != [] && p < |st.blocking[key]|
    requires var c := st.blocking[key][0]; c in st.waits && st.waits[c].kind != kind
    requires InOrder(Rotate(st, key), st', key, p, kind)
    ensures InOrder(st, st', key, p + 1, kind)
  {
    var b := st.blocking[key];
    hide Replied, Among;
    var c, mid, end := b[0], b[1..p + 1], b[p + 1..];
    Parts(b, p);
    RotatedAmong(c, mid, end, st.waits, kind);
    assert Queue(Rotate(st, key), key) == b[1..] + [c];
    ReplySame(Rotate(st, key), st, st', Among(b[..p + 1], st.waits, kind, true));
  }

  /** A queue in three parts, before and after its first client went to the end. */
  lemma Parts(b: seq<Client>, p: nat)
    requires p < |b|
    ensures var b', c, mid, end := b[1..] + [b[0]], b[0], b[1..p + 1], b[p + 1..];
      b'[..p] == mid && b'[p..] == end + [c] && b[..p + 1] == [c] + mid && b == [c] + (mid + end)
  {
  }

  lemma RotatedAmong(c: Client, mid: seq<Client>, end: seq<Client>, waits: map<Client, Wait>, kind: Kind)
    requires c in waits && waits[c].kind != kind
    ensures Among(mid, waits, kind, true) == Among([c] + mid, waits, kind, true)
    ensures Among(end + [c], waits, kind, false) + Among(mid, waits, kind, false)
            == Among(end, waits, kind, false) + Among([c] + mid, waits, kind, false)
    ensures Among([c] + (mid + end), waits, kind, false) != []
  {
    hide Among;
    OneAmong(c, waits, kind, true);
    OneAmong(c, waits, kind, false);
    AmongJoin([c], mid, waits, kind, true);
    AmongJoin([c], mid, waits, kind, false);
    AmongJoin(end, [c], waits, kind, false);
    AmongJoin([c], mid + end, waits, kind, false);
    ThreeParts(Among(end, waits, kind, false), [c], Among(mid, waits, kind, false), Among(mid, waits, kind, true));
  }

  lemma ThreeParts(x: seq<Client>, y: seq<Client>, z: seq<Client>, w: seq<Client>)
    ensures x + y + z == x + (y + z) && [] + w == w
  {
  }

  lemma ReplySame(st: State, st1: State, st': State, a: seq<Client>)
    requires st.replies == st1.replies && Replied(st, st', a)
    ensures Replied(st1, st', a)
  {
  }

  lemma OneAmong(c: Client, waits: map<Client, Wait>, kind: Kind, yes: bool)
    requires c in waits
    ensures Among([c], waits, kind, yes) == if (waits[c].kind == kind) == yes then [c] else []
  {
  }

  /** A client that waits for the key's type is served and leaves. */
  lemma ServedOrder(st: State, st1: State, st': State, key: Key, p: nat, kind: Kind)
    requires key in st.blocking && st.blocking[key] != [] && NoDup(st.blocking[key])
    requires var c := st.blocking[key][0];
      && c in st.waits && st.waits[c].kind == kind && Replied(st, st1, [c]) && st1.waits == st.waits - {c}
    requires Queue(st1, key) == st.blocking[key][1..] && InOrder(st1, st', key, p, kind)
    ensures InOrder(st, st', key, p + 1, kind)
  {
    var b := st.blocking[key];
    var c, rest := b[0], b[1..];
    assert c !in rest;
    assert c !in rest[..p];
    hide Replied, Among, Queue;
    assert Queue(st, key) == b by { QueueIs(st, key); }
    assert b[..p + 1] == [c] + rest[..p] && b[p + 1..] == rest[p..] && b == [c] + rest;
    OneAmong(c, st.waits, kind, true);
    OneAmong(c, st.waits, kind, false);
    AmongJoin([c], rest[..p], st.waits, kind, true);
    AmongJoin([c], rest[..p], st.waits, kind, false);
    AmongJoin([c], rest, st.waits, kind, false);
    AmongWithout(rest[..p], st.waits, c, kind, true);
    AmongWithout(rest[..p], st.waits, c, kind, false);
    AmongWithout(rest[p..], st.waits, c, kind, false);
    AmongWithout(rest, st.waits, c, kind, false);
    AmongWithout(Queue(st', key), st.waits, c, kind, false);
    RepliedJoin(st, st1, st', [c], Among(rest[..p], st1.waits, kind, true));
    assert [] + Among(rest[..p], st.waits, kind, false) == Among(rest[..p], st.waits, kind, false);
    assert [] + Among(rest, st.waits, kind, false) == Among(rest, st.waits, kind, false);
  }

  lemma QueueIs(st: State, key: Key)
    requires key in st.blocking
    ensures Queue(st, key) == st.blocking[key]
  {
  }

  /** The key holds something else than a list. */
  predicate Wrong(store: map<Key, Obj>, k: Key) { k in store && !store[k].List? }

  /** The elements of the list at `key` that serving a client uses up: none if the element is pushed back, to `key` as
      the client's target or because the target holds another type. */
  function Takes(w: Wait, store: map<Key, Obj>, key: Key): nat {
    if w.target.Some? && (w.target.value == key || Wrong(store, w.target.value)) then 0 else 1
  }

  /** How many clients of a queue are visited before a list of `room` elements is found empty. */
  function Stop(q: seq<Client>, waits: map<Client, Wait>, store: map<Key, Obj>, key: Key, room: nat): (p: nat)
    ensures p <= |q|
  {
    if q == [] then 0
    else if q[0] !in waits || waits[q[0]].kind != OnList then 1 + Stop(q[1..], waits, store, key, room)
    else if room == 0 then 0
    else 1 + Stop(q[1..], waits, store, key, room - Takes(waits[q[0]], store, key))
  }

  /** The same for a sorted set, which is gone with its last element. */
  function StopZSet(q: seq<Client>, waits: map<Client, Wait>, room: nat): (p: nat)
    ensures p <= |q|
  {
    if q == [] || room == 0 then 0
    else 1 + StopZSet(q[1..], waits, if q[0] in waits && waits[q[0]].kind == OnZSet then room - 1 else room)
  }

  lemma {:induction false} StopAgrees(q: seq<Client>, waits: map<Client, Wait>, c: Client, store: map<Key, Obj>,
                                      store': map<Key, Obj>, key: Key, room: nat)
    requires c !in q && forall k :: Wrong(store, k) == Wrong(store', k)
    ensures Stop(q, waits - {c}, store', key, room) == Stop(q, waits, store, key, room)
    decreases |q|
  {
    hide Wrong;
    if q != [] {
      StopAgrees(q[1..], waits, c, store, store', key, room);
      if q[0] in waits && room > 0 {
        StopAgrees(q[1..], waits, c, store, store', key, room - Takes(waits[q[0]], store, key));
      }
    }
  }

  lemma {:induction false} StopZSetAgrees(q: seq<Client>, waits: map<Client, Wait>, c: Client, room: nat)
    requires c !in q
    ensures StopZSet(q, waits - {c}, room) == StopZSet(q, waits, room)
    decreases |q|
  {
    if q != [] && room > 0 {
      StopZSetAgrees(q[1..], waits, c, if q[0] in waits && waits[q[0]].kind == OnZSet then room - 1 else room);
    }
  }

  lemma ServeOneRoom(st: State, key: Key, c: Client)
    requires c in st.waits && key in st.store && st.store[key].List? && st.store[key].elems != []
    ensures var st' := ServeOne(st, key, c);
      && key in st'.store && st'.store[key].List?
      && |st'.store[key].elems| == |st.store[key].elems| - Takes(st.waits[c], st.store, key)
      && forall k :: Wrong(st.store, k) == Wrong(st'.store, k)
  {
    var s, head := st.store[key].elems, st.waits[c].head;
    LeftSize(s, head);
    hide Unblock, Taken, Left;
    UnblockKeeps(st.(store := st.store[key := List(Left(s, head))]), c);
  }

  /** How many of the first n clients waiting on the list at `key` are visited. */
  ghost function ListStop(st: State, key: Key, n: nat): nat
    requires key in st.store && st.store[key].List? && n <= |Queue(st, key)|
  {
    Stop(Queue(st, key)[..n], st.waits, st.store, key, |st.store[key].elems|)
  }

  ghost function ZSetStop(st: State, key: Key, n: nat): nat
    requires key in st.store ==> st.store[key].ZSet?
    requires n <= |Queue(st, key)|
  {
    StopZSet(Queue(st, key)[..n], st.waits, if key in st.store then |st.store[key].elems| else 0)
  }

  lemma RotatedStop(st: State, key: Key, n: nat, kind: Kind)
    requires key in st.blocking && 0 < n <= |st.blocking[key]|
    requires var c := st.blocking[key][0]; c in st.waits && st.waits[c].kind != kind
    ensures n - 1 <= |Queue(Rotate(st, key), key)|
    ensures kind == OnList && key in st.store && st.store[key].List? ==>
              ListStop(st, key, n) == 1 + ListStop(Rotate(st, key), key, n - 1)
    ensures kind == OnZSet && key in st.store && st.store[key].ZSet? && st.store[key].elems != [] ==>
              ZSetStop(st, key, n) == 1 + ZSetStop(Rotate(st, key), key, n - 1)
  {
    var b := st.blocking[key];
    assert b[..n][1..] == (b[1..] + [b[0]])[..n - 1];
  }

  lemma ServedStop(st: State, st1: State, key: Key, n: nat)
    requires key in st.blocking && 0 < n <= |st.blocking[key]| && NoDup(st.blocking[key])
    requires var c := st.blocking[key][0];
      && c in st.waits && st.waits[c].kind == OnList && key in st.store && st.store[key].List?
      && st.store[key].elems != [] && st1 == ServeOne(st, key, c) && st1.waits == st.waits - {c}
    requires Queue(st1, key) == st.blocking[key][1..]
    ensures key in st1.store && st1.store[key].List? && ListStop(st, key, n) == 1 + ListStop(st1, key, n - 1)
  {
    var b, c := st.blocking[key], st.blocking[key][0];
    ServeOneRoom(st, key, c);
    assert b[..n][1..] == b[1..][..n - 1];
    assert c !in b[1..][..n - 1];
    hide ServeOne, Takes, Wrong, NoDup;
    StopAgrees(b[1..][..n - 1], st.waits, c, st.store, st1.store, key, |st1.store[key].elems|);
  }

  lemma PoppedStop(st: State, st1: State, key: Key, n: nat)
    requires key in st.blocking && 0 < n <= |st.blocking[key]| && NoDup(st.blocking[key])
    requires var c := st.blocking[key][0];
      && c in st.waits && st.waits[c].kind == OnZSet && key in st.store && st.store[key].ZSet?
      && st.store[key].elems != [] && st1 == PopOne(st, key, c) && st1.waits == st.waits - {c}
    requires Queue(st1, key) == st.blocking[key][1..]
    ensures key in st1.store ==> st1.store[key].ZSet?
    ensures ZSetStop(st, key, n) == 1 + ZSetStop(st1, key, n - 1)
  {
    var b, c := st.blocking[key], st.blocking[key][0];
    var s := st.store[key].elems;
    LeftSize(s, st.waits[c].head);
    hide Unblock, Taken, Left;
    UnblockKeeps(st, c);
    assert b[..n][1..] == b[1..][..n - 1];
    assert c !in b[1..][..n - 1];
    hide PopOne, NoDup;
    StopZSetAgrees(b[1..][..n - 1], st.waits, c, |s| - 1);
  }

  /** Clients waiting for the list are served first come, first served, until it is empty or they all are: those
      before the first that finds it empty. */
  lemma {:induction false} ServeListInOrder(st: State, key: Key, n: nat, l: seq<Key>)
    requires Good(st, l, Some(key)) && key in st.store && st.store[key].List?
    requires n > 0 ==> key in st.blocking && n <= |st.blocking[key]|
    ensures var st', p := ServeList(st, key, n, l), ListStop(st, key, n);
      && p <= n && InOrder(st, st', key, p, OnList)
      && key in st'.store && st'.store[key].List? && (p < n ==> st'.store[key].elems == [])
    decreases n
  {
    hide Good, ServeOne, Rotate, InOrder, Replied, Among, Indexed, NoDup, ListStop;
    StopZero(st, key, n);
    Untouched(st, key, OnList);
    if n > 0 {
      var c := st.blocking[key][0];
      FirstWaits(st, l, Some(key), key);
      if st.waits[c].kind != OnList {
        RotateGood(st, l, Some(key), key, {});
        RotateFacts(st, key);
        ServeListInOrder(Rotate(st, key), key, n - 1, l);
        RotatedStop(st, key, n, OnList);
        RotatedOrder(st, ServeList(st, key, n, l), key, ListStop(st, key, n) - 1, OnList);
      } else if st.store[key].elems != [] {
        var st1 := ServeOne(st, key, c);
        ServeOneGood(st, l, key, c, {});
        ServeOneFacts(st, key, c);
        ServeOneReply(st, key, c);
        ServeListInOrder(st1, key, n - 1, l);
        ServedStop(st, st1, key, n);
        ServedOrder(st, st1, ServeList(st, key, n, l), key, ListStop(st, key, n) - 1, OnList);
      }
    }
  }

  lemma StopZero(st: State, key: Key, n: nat)
    requires key in st.store && st.store[key].List? && n <= |Queue(st, key)|
    ensures ListStop(st, key, 0) == 0
    ensures n > 0 && st.store[key].elems == [] ==>
              var c := Queue(st, key)[0];
              c in st.waits && st.waits[c].kind == OnList ==> ListStop(st, key, n) == 0
  {
  }

  lemma RotateFacts(st: State, key: Key)
    requires key in st.blocking && st.blocking[key] != []
    ensures Rotate(st, key).waits == st.waits && Rotate(st, key).store == st.store && key in Rotate(st, key).blocking
  {
  }

  /** The same for a sorted set, until it is gone. */
  lemma {:induction false} ServeZSetInOrder(st: State, key: Key, n: nat, l: seq<Key>)
    requires Good(st, l, Some(key)) && (key in st.store ==> st.store[key].ZSet? && st.store[key].elems != [])
    requires n > 0 ==> key in st.blocking && n <= |st.blocking[key]|
    ensures var st', p := ServeZSet(st, key, n, l), ZSetStop(st, key, n);
      p <= n && InOrder(st, st', key, p, OnZSet) && (p < n ==> key !in st'.store)
    decreases n
  {
    hide Good, PopOne, Rotate, InOrder, Replied, Among, Indexed, NoDup, ZSetStop;
    if n == 0 || key !in st.store {
      Untouched(st, key, OnZSet);
      StopZeroZSet(st, key, n);
    } else {
      var c := st.blocking[key][0];
      FirstWaits(st, l, Some(key), key);
      if st.waits[c].kind != OnZSet {
        RotateGood(st, l, Some(key), key, {});
        RotateFacts(st, key);
        ServeZSetInOrder(Rotate(st, key), key, n - 1, l);
        RotatedStop(st, key, n, OnZSet);
        RotatedOrder(st, ServeZSet(st, key, n, l), key, ZSetStop(st, key, n) - 1, OnZSet);
      } else {
        var st1 := PopOne(st, key, c);
        PopOneGood(st, l, key, c, {});
        PopOneReply(st, key, c);
        ServeZSetInOrder(st1, key, n - 1, l);
        PoppedStop(st, st1, key, n);
        ServedOrder(st, st1, ServeZSet(st, key, n, l), key, ZSetStop(st, key, n) - 1, OnZSet);
      }
    }
  }

  lemma StopZeroZSet(st: State, key: Key, n: nat)
    requires (key in st.store ==> st.store[key].ZSet?) && n <= |Queue(st, key)| && (n == 0 || key !in st.store)
    ensures ZSetStop(st, key, n) == 0
  {
  }

  lemma PopOneReply(st: State, key: Key, c: Client)
    requires c in st.waits && key in st.store && st.store[key].ZSet? && st.store[key].elems != []
    ensures Replied(st, PopOne(st, key, c), [c])
  {
    hide Unblock, Taken, Left, Replied;
    RepliedOne(st, PopOne(st, key, c), Gave(c, Taken(st.store[key].elems, st.waits[c].head)));
  }

  lemma {:induction false} AmongIn(s: seq<Client>, waits: map<Client, Wait>, kind: Kind, yes: bool, c: Client)
    requires c in Among(s, waits, kind, yes)
    ensures c in s
    decreases |s|
  {
    if c in Among(s[1..], waits, kind, yes) { AmongIn(s[1..], waits, kind, yes, c); }
  }

  /** There are clients waiting for something else than kind both among the first p and among the rest. */
  ghost predicate Straddles(q: seq<Client>, waits: map<Client, Wait>, p: nat, kind: Kind)
    requires p <= |q|
  {
    && (exists i | 0 <= i < p :: q[i] in waits && waits[q[i]].kind != kind)
    && (exists j | p <= j < |q| :: q[j] in waits && waits[q[j]].kind != kind)
  }

  lemma {:induction false} NoneAmong(q: seq<Client>, waits: map<Client, Wait>, kind: Kind)
    ensures Among(q, waits, kind, false) != [] <==> exists i | 0 <= i < |q| :: q[i] in waits && waits[q[i]].kind != kind
    decreases |q|
  {
    if q != [] {
      NoneAmong(q[1..], waits, kind);
      if i :| 0 <= i < |q| && q[i] in waits && waits[q[i]].kind != kind {
        assert i > 0 ==> q[i] == q[1..][i - 1];
      }
      if i :| 0 <= i < |q| - 1 && q[1..][i] in waits && waits[q[1..][i]].kind != kind {
        assert q[1..][i] == q[i + 1];
      }
    }
  }

  lemma StraddlesIff(q: seq<Client>, waits: map<Client, Wait>, p: nat, kind: Kind)
    requires p <= |q|
    ensures Straddles(q, waits, p, kind)
            <==> Among(q[..p], waits, kind, false) != [] && Among(q[p..], waits, kind, false) != []
  {
    hide Among;
    NoneAmong(q[..p], waits, kind);
    NoneAmong(q[p..], waits, kind);
    assert forall j | p <= j < |q| :: q[j] == q[p..][j - p];
    assert forall j | 0 <= j < |q| - p :: q[p..][j] == q[p + j];
    assert forall i | 0 <= i < p :: q[..p][i] == q[i];
  }

  /** Clients waiting for another type keep their order unless some of them were visited and some were not. */
  lemma KeepOrderIff(st: State, st': State, key: Key, p: nat, kind: Kind)
    requires InOrder(st, st', key, p, kind) && NoDup(Queue(st, key))
    ensures Among(Queue(st', key), st.waits, kind, false) == Among(Queue(st, key), st.waits, kind, false)
            <==> !Straddles(Queue(st, key), st.waits, p, kind)
  {
    RotatedIff(Queue(st, key), p, st.waits, kind);
    StraddlesIff(Queue(st, key), st.waits, p, kind);
    hide Among, Replied, Queue, NoDup, Straddles;
  }

  /** Serving a list keeps the order of the clients waiting for another type if and only if they do not stand on both
      sides of the client that would find the list empty. */
  lemma OthersKeepOrderIff(st: State, key: Key, l: seq<Key>)
    requires Good(st, l, Some(key)) && key in st.store && st.store[key].List? && key in st.blocking
    ensures var q, st' := st.blocking[key], ServeList(st, key, |st.blocking[key]|, l);
      Among(Queue(st', key), st.waits, OnList, false) == Among(q, st.waits, OnList, false)
      <==> !Straddles(q, st.waits, Stop(q, st.waits, st.store, key, |st.store[key].elems|), OnList)
  {
    var q := st.blocking[key];
    assert q[..|q|] == q;
    FirstWaits(st, l, Some(key), key);
    ServeListInOrder(st, key, |q|, l);
    KeepOrderIff(st, ServeList(st, key, |q|, l), key, ListStop(st, key, |q|), OnList);
    hide Among, Straddles, Stop, Good, ServeList;
  }

  /** The same for a sorted set. */
  lemma OthersKeepOrderZSetIff(st: State, key: Key, l: seq<Key>)
    requires Good(st, l, Some(key)) && key in st.store && st.store[key].ZSet? && st.store[key].elems != []
    requires key in st.blocking
    ensures var q, st' := st.blocking[key], ServeZSet(st, key, |st.blocking[key]|, l);
      Among(Queue(st', key), st.waits, OnZSet, false) == Among(q, st.waits, OnZSet, false)
      <==> !Straddles(q, st.waits, StopZSet(q, st.waits, |st.store[key].elems|), OnZSet)
  {
    var q := st.blocking[key];
    assert q[..|q|] == q;
    FirstWaits(st, l, Some(key), key);
    ServeZSetInOrder(st, key, |q|, l);
    KeepOrderIff(st, ServeZSet(st, key, |q|, l), key, ZSetStop(st, key, |q|), OnZSet);
    hide Among, Straddles, StopZSet, Good, ServeZSet;
  }

  lemma RotatedIff(b: seq<Client>, p: nat, waits: map<Client, Wait>, kind: Kind)
    requires NoDup(b) && p <= |b|
    ensures var x, y := Among(b[..p], waits, kind, false), Among(b[p..], waits, kind, false);
      y + x == Among(b, waits, kind, false) <==> x == [] || y == []
  {
    hide Among, NoDup;
    var x, y := Among(b[..p], waits, kind, false), Among(b[p..], waits, kind, false);
    assert b[..p] + b[p..] == b;
    AmongJoin(b[..p], b[p..], waits, kind, false);
    if x != [] && y != [] {
      AmongIn(b[..p], waits, kind, false, x[0]);
      AmongIn(b[p..], waits, kind, false, y[0]);
      Elsewhere(b, p, x[0], y[0]);
    }
    SwapIff(x, y);
  }

  lemma Elsewhere(b: seq<Client>, p: nat, c: Client, d: Client)
    requires NoDup(b) && p <= |b| && c in b[..p] && d in b[p..]
    ensures c != d
  {
  }

  lemma SwapIff(x: seq<Client>, y: seq<Client>)
    requires x != [] && y != [] ==> x[0] != y[0]
    ensures y + x == x + y <==> x == [] || y == []
  {
    if x == [] { assert y + x == y && x + y == y; }
    if y == [] { assert y + x == x && x + y == x; }
    if x != [] && y != [] { assert (x + y)[0] == x[0] && (y + x)[0] == y[0]; }
  }

  // ---- the ready keys ----

  /** The ready key itself: out of the dictionary first, so that it can be signalled again; an emptied list is
      deleted. */
  function ServeKey(st: State, key: Key, ghost l: seq<Key>): State
    requires Good(st, [key] + l, None)
  {
    var st0 := st.(readySet := st.readySet - {key});
    TakeGood(st, key, l, {});
    var n := if key in st.blocking then |st.blocking[key]| else 0;
    if key !in st.store then st0
    else if st.store[key].List? then
      var st1 := ServeList(st0, key, n, l);
      ServeListDone(st0, key, n, l, {});
      if st1.store[key].elems == [] then st1.(store := st1.store - {key}) else st1
    else if st.store[key].ZSet? then ServeZSet(st0, key, n, l)
    else st0
  }

  lemma TakeGood(st: State, key: Key, l: seq<Key>, m: set<Key>)
    requires Good(st, [key] + l, None)
    ensures Good(st.(readySet := st.readySet - {key}), l, Some(key))
    ensures NobodyStarves(st, None, m) ==> NobodyStarves(st.(readySet := st.readySet - {key}), Some(key), m)
    ensures Visited(st, key, if key in st.blocking then |st.blocking[key]| else 0, OnList)
    ensures Visited(st, key, if key in st.blocking then |st.blocking[key]| else 0, OnZSet)
    ensures key in st.store && st.store[key].ZSet? ==> st.store[key].elems != []
  {
    var all := [key] + l + st.ready;
    assert all[1..] == l + st.ready;
    assert forall i | 0 <= i < |l + st.ready| :: (l + st.ready)[i] == all[i + 1];
    assert key !in l && key !in st.ready by {
      assert all[0] == key;
      assert forall i | 1 <= i < |all| :: all[i] != all[0];
      assert forall i | 0 <= i < |l| :: all[i + 1] == l[i];
      assert forall i | 0 <= i < |st.ready| :: all[i + 1 + |l|] == st.ready[i];
    }
    hide Indexed;
  }

  /** Closing the case of key x: nobody starves on it, even if somebody did before. */
  lemma CloseGood(st: State, l: seq<Key>, key: Key, m: set<Key>)
    requires Good(st, l, Some(key))
    requires key in st.store && !st.store[key].Other? ==>
               st.store[key].elems != [] && Visited(st, key, 0, if st.store[key].List? then OnList else OnZSet)
    ensures Good(st, l, None)
    ensures NobodyStarves(st, Some(key), m) ==> NobodyStarves(st, None, m - {key})
  {
    hide Indexed, ReadyAgree;
  }

  lemma ServeKeyGood(st: State, key: Key, l: seq<Key>, m: set<Key>)
    requires Good(st, [key] + l, None)
    ensures Good(ServeKey(st, key, l), l, None) && Onward(st, ServeKey(st, key, l))
    ensures NobodyStarves(st, None, m) ==> NobodyStarves(ServeKey(st, key, l), None, m - {key})
  {
    hide Good, NobodyStarves, Visited, ServeList, ServeZSet;
    TakeGood(st, key, l, m);
    var st0 := st.(readySet := st.readySet - {key});
    var n := if key in st.blocking then |st.blocking[key]| else 0;
    SameVisited(st, st0, key, n);
    if key in st.store && st.store[key].List? {
      ServeListDone(st0, key, n, l, m);
      var st1 := ServeList(st0, key, n, l);
      if st1.store[key].elems == [] { RemoveGood(st1, l, key, m); }
    } else if key in st.store && st.store[key].ZSet? {
      ServeZSetDone(st0, key, n, l, m);
    }
    CloseGood(ServeKey(st, key, l), l, key, m);
  }

  lemma SameVisited(st: State, st0: State, key: Key, n: nat)
    requires st0.blocking == st.blocking && st0.waits == st.waits
    ensures Visited(st0, key, n, OnList) == Visited(st, key, n, OnList)
    ensures Visited(st0, key, n, OnZSet) == Visited(st, key, n, OnZSet)
  {
  }

  lemma DrainStep(st: State, l: seq<Key>, m: set<Key>)
    requires Good(st, l, None) && l != []
    ensures Good(st, [l[0]] + l[1..], None)
    ensures Good(ServeKey(st, l[0], l[1..]), l[1..], None) && Onward(st, ServeKey(st, l[0], l[1..]))
    ensures NobodyStarves(st, None, m) ==> NobodyStarves(ServeKey(st, l[0], l[1..]), None, m - {l[0]})
  {
    hide Good, ServeKey;
    assert [l[0]] + l[1..] == l;
    ServeKeyGood(st, l[0], l[1..], m);
  }

  /** The keys taken off the ready list, one after the other. */
  function Drain(st: State, l: seq<Key>): State
    requires Good(st, l, None)
    decreases |l|
  {
    if l == [] then st
    else
      DrainStep(st, l, {});
      Drain(ServeKey(st, l[0], l[1..]), l[1..])
  }

  function SetOf(l: seq<Key>): set<Key> { set k | k in l }

  /** Nobody starves on the keys that were served. */
  lemma {:induction false} DrainGood(st: State, l: seq<Key>, m: set<Key>)
    requires Good(st, l, None)
    ensures Good(Drain(st, l), [], None) && Onward(st, Drain(st, l))
    ensures NobodyStarves(st, None, m) ==> NobodyStarves(Drain(st, l), None, m - SetOf(l))
    decreases |l|
  {
    hide Good, NobodyStarves, ServeKey;
    if l == [] {
      assert m - SetOf(l) == m;
    } else {
      DrainStep(st, l, m);
      DrainGood(ServeKey(st, l[0], l[1..]), l[1..], m - {l[0]});
      assert m - {l[0]} - SetOf(l[1..]) == m - SetOf(l) by { assert SetOf(l) == {l[0]} + SetOf(l[1..]); }
    }
  }

  lemma {:induction false} CardLess<T>(a: set<T>, b: set<T>)
    requires a <= b
    ensures |a| <= |b| && (a != b ==> |a| < |b|)
  {
    if a == {} {
    } else {
      var x :| x in a;
      CardLess(a - {x}, b - {x});
    }
  }

  /** Taking the ready list. */
  lemma TakeList(st: State, m: set<Key>)
    requires Good(st, [], None)
    ensures Good(st.(ready := []), st.ready, None)
    ensures NobodyStarves(st, None, m) ==> NobodyStarves(st.(ready := []), None, m)
  {
    assert [] + st.ready == st.ready + [];
  }

  /** A round of the outer loop leaves fewer clients, or no ready keys. */
  lemma RoundShrinks(st: State, m: set<Key>)
    requires Good(st, [], None)
    ensures Good(st.(ready := []), st.ready, None)
    ensures var st' := Drain(st.(ready := []), st.ready);
      && Good(st', [], None) && st'.waits.Keys <= st.waits.Keys
      && (|st'.waits.Keys| < |st.waits.Keys| || (st'.waits.Keys == st.waits.Keys && st'.ready == []))
      && (NobodyStarves(st, None, m) ==> NobodyStarves(st', None, m - SetOf(st.ready)))
  {
    hide Good, NobodyStarves, Drain;
    TakeList(st, m);
    DrainGood(st.(ready := []), st.ready, m);
    CardLess(Drain(st.(ready := []), st.ready).waits.Keys, st.waits.Keys);
  }

  /** `handleClientsBlockedOnKeys`. It ends, because a round that makes keys ready has served a client. */
  function Handle(st: State): State
    requires Good(st, [], None)
    decreases |st.waits.Keys|, |st.ready|
  {
    if st.ready == [] then st
    else
      RoundShrinks(st, {});
      Handle(Drain(st.(ready := []), st.ready))
  }

  /** The keys it serves. */
  ghost function Handled(st: State): set<Key>
    requires Good(st, [], None)
    decreases |st.waits.Keys|, |st.ready|
  {
    if st.ready == [] then {}
    else
      RoundShrinks(st, {});
      SetOf(st.ready) + Handled(Drain(st.(ready := []), st.ready))
  }

  /** Afterwards no key is ready, the indexes agree, and no client is left waiting for elements that are there, unless
      it starved before on one of the keys m, which was not served. */
  lemma {:induction false} HandleGood(st: State, m: set<Key>)
    requires Good(st, [], None) && NobodyStarves(st, None, m)
    ensures var st' := Handle(st);
      && Good(st', [], None) && st'.ready == [] && st'.readySet == {} && st'.waits.Keys <= st.waits.Keys
      && NobodyStarves(st', None, m - Handled(st))
      && forall k, c | k in st'.store && c in st'.waits && k in st'.waits[c].keys && k !in m - Handled(st) ::
           !Matches(st'.store[k], st'.waits[c])
    decreases |st.waits.Keys|, |st.ready|
  {
    if st.ready == [] {
      QuietGood(st, m);
      assert m - {} == m;
    } else {
      hide Good, NobodyStarves, Drain, Matches, Indexed;
      RoundShrinks(st, m);
      var st1 := Drain(st.(ready := []), st.ready);
      HandleGood(st1, m - SetOf(st.ready));
      assert m - SetOf(st.ready) - Handled(st1) == m - (SetOf(st.ready) + Handled(st1));
    }
  }

  lemma QuietGood(st: State, m: set<Key>)
    requires Good(st, [], None) && st.ready == [] && NobodyStarves(st, None, m)
    ensures st.readySet == {}
    ensures forall k, c | k in st.store && c in st.waits && k in st.waits[c].keys && k !in m ::
              !Matches(st.store[k], st.waits[c])
  {
    assert st.readySet == {};
  }

  // ---- elements are conserved ----

  function Elems(o: Obj): multiset<Elem> { if o.Other? then multiset{} else multiset(o.elems) }

  /** All elements in the store. */
  ghost function Total(store: map<Key, Obj>): multiset<Elem> {
    if store.Keys == {} then multiset{}
    else
      var k :| k in store;
      Elems(store[k]) + Total(store - {k})
  }

  lemma {:induction false} TotalAt(store: map<Key, Obj>, k: Key)
    requires k in store
    ensures Total(store) == Elems(store[k]) + Total(store - {k})
    decreases |store.Keys|
  {
    hide Elems;
    var p :| p in store && Total(store) == Elems(store[p]) + Total(store - {p});
    if p != k {
      TotalAt(store - {p}, k);
      TotalAt(store - {k}, p);
      assert store - {p} - {k} == store - {k} - {p};
    }
  }

  /** Replacing an object exchanges its elements. */
  lemma TotalSet(store: map<Key, Obj>, k: Key, o: Obj)
    ensures Total(store[k := o]) == Total(store - {k}) + Elems(o)
    ensures k !in store ==> store - {k} == store
  {
    hide Elems, Total;
    TotalAt(store[k := o], k);
    assert store[k := o] - {k} == store - {k};
  }

  /** The elements clients were given. */
  function Given(rs: seq<Reply>): multiset<Elem> {
    if rs == [] then multiset{}
    else Given(rs[..|rs| - 1]) + match rs[|rs| - 1] case Gave(_, v) => multiset{v} case _ => multiset{}
  }

  lemma GivenMore(rs: seq<Reply>, r: Reply)
    ensures Given(rs + [r]) == Given(rs) + match r case Gave(_, v) => multiset{v} case _ => multiset{}
  {
    assert (rs + [r])[..|rs|] == rs;
  }

  ghost function Balance(st: State): multiset<Elem> { Total(st.store) + Given(st.replies) }

  lemma TakenLeft(s: seq<Elem>, head: bool)
    requires s != []
    ensures multiset(s) == multiset(Left(s, head)) + multiset{Taken(s, head)}
    ensures multiset(Back(Left(s, head), head, Taken(s, head))) == multiset(s)
  {
    if head { assert s == [s[0]] + s[1..]; } else { assert s == s[..|s| - 1] + [s[|s| - 1]]; }
  }

  lemma PushTotal(st: State, t: Key, v: Elem)
    requires t in st.store ==> st.store[t].List?
    ensures Total(PushTo(st, t, v).store) == Total(st.store) + multiset{v} && PushTo(st, t, v).replies == st.replies
  {
    hide Total;
    if t in st.store {
      TotalAt(st.store, t);
      TotalSet(st.store, t, List([v] + st.store[t].elems));
      assert multiset([v] + st.store[t].elems) == multiset{v} + multiset(st.store[t].elems);
    } else {
      TotalSet(st.store, t, List([v]));
    }
  }

  /** A served element is with the client, in the target list, or back in its list. */
  lemma ServeOneBalance(st: State, key: Key, c: Client)
    requires c in st.waits && key in st.store && st.store[key].List? && st.store[key].elems != []
    ensures Balance(ServeOne(st, key, c)) == Balance(st)
  {
    hide Total, Taken, Left, Back, Given, PushTo, Rest;
    var w, s := st.waits[c], st.store[key].elems;
    var v, left := Taken(s, w.head), Left(s, w.head);
    TakenLeft(s, w.head);
    TotalAt(st.store, key);
    TotalSet(st.store, key, List(left));
    var st1 := Unblock(st.(store := st.store[key := List(left)]), c);
    if w.target.None? {
      GivenMore(st.replies, Gave(c, v));
    } else if w.target.value in st1.store && !st1.store[w.target.value].List? {
      var back := Back(left, w.head, v);
      assert st1.store[key := List(back)] == st.store[key := List(back)];
      TotalSet(st.store, key, List(back));
      GivenMore(st.replies, WrongType(c));
    } else {
      PushTotal(st1, w.target.value, v);
      GivenMore(st.replies, Moved(c, v));
    }
  }

  lemma PopOneBalance(st: State, key: Key, c: Client)
    requires c in st.waits && key in st.store && st.store[key].ZSet? && st.store[key].elems != []
    ensures Balance(PopOne(st, key, c)) == Balance(st)
  {
    hide Total, Taken, Left, Given, Rest;
    var s, head := st.store[key].elems, st.waits[c].head;
    TakenLeft(s, head);
    LeftSize(s, head);
    TotalAt(st.store, key);
    TotalSet(st.store, key, ZSet(Left(s, head)));
    GivenMore(st.replies, Gave(c, Taken(s, head)));
  }

  lemma LeftSize(s: seq<Elem>, head: bool)
    requires s != []
    ensures |Left(s, head)| == |s| - 1 && (|s| == 1 ==> Left(s, head) == [])
  {
  }

  lemma {:induction false} ServeListBalance(st: State, key: Key, n: nat, l: seq<Key>)
    requires Good(st, l, Some(key)) && key in st.store && st.store[key].List?
    requires n > 0 ==> key in st.blocking && n <= |st.blocking[key]|
    ensures Balance(ServeList(st, key, n, l)) == Balance(st)
    decreases n
  {
    hide Good, ServeOne, Balance;
    if n > 0 {
      var c := st.blocking[key][0];
      FirstWaits(st, l, Some(key), key);
      if st.waits[c].kind != OnList {
        RotateGood(st, l, Some(key), key, {});
        ServeListBalance(Rotate(st, key), key, n - 1, l);
        RotateBalance(st, key);
      } else if st.store[key].elems != [] {
        ServeOneGood(st, l, key, c, {});
        ServeOneFacts(st, key, c);
        ServeOneBalance(st, key, c);
        ServeListBalance(ServeOne(st, key, c), key, n - 1, l);
      }
    }
  }

  lemma RotateBalance(st: State, key: Key)
    requires key in st.blocking && st.blocking[key] != []
    ensures Balance(Rotate(st, key)) == Balance(st)
  {
  }

  lemma {:induction false} ServeZSetBalance(st: State, key: Key, n: nat, l: seq<Key>)
    requires Good(st, l, Some(key)) && (key in st.store ==> st.store[key].ZSet? && st.store[key].elems != [])
    requires n > 0 ==> key in st.blocking && n <= |st.blocking[key]|
    ensures Balance(ServeZSet(st, key, n, l)) == Balance(st)
    decreases n
  {
    hide Good, PopOne, Balance;
    if n > 0 && key in st.store {
      var c := st.blocking[key][0];
      FirstWaits(st, l, Some(key), key);
      if st.waits[c].kind != OnZSet {
        RotateGood(st, l, Some(key), key, {});
        ServeZSetBalance(Rotate(st, key), key, n - 1, l);
        RotateBalance(st, key);
      } else {
        PopOneGood(st, l, key, c, {});
        PopOneBalance(st, key, c);
        ServeZSetBalance(PopOne(st, key, c), key, n - 1, l);
      }
    }
  }

  lemma ServeKeyBalance(st: State, key: Key, l: seq<Key>)
    requires Good(st, [key] + l, None)
    ensures Balance(ServeKey(st, key, l)) == Balance(st)
  {
    hide Good, Total, Given, ServeList, ServeZSet, Visited;
    TakeGood(st, key, l, {});
    var st0 := st.(readySet := st.readySet - {key});
    var n := if key in st.blocking then |st.blocking[key]| else 0;
    SameVisited(st, st0, key, n);
    if key in st.store && st.store[key].List? {
      ServeListBalance(st0, key, n, l);
      ServeListDone(st0, key, n, l, {});
      var st1 := ServeList(st0, key, n, l);
      TotalAt(st1.store, key);
    } else if key in st.store && st.store[key].ZSet? {
      ServeZSetBalance(st0, key, n, l);
    }
  }

  lemma {:induction false} DrainBalance(st: State, l: seq<Key>)
    requires Good(st, l, None)
    ensures Balance(Drain(st, l)) == Balance(st)
    decreases |l|
  {
    hide Good, ServeKey, Balance;
    if l != [] {
      DrainStep(st, l, {});
      ServeKeyBalance(st, l[0], l[1..]);
      DrainBalance(ServeKey(st, l[0], l[1..]), l[1..]);
    }
  }

  /** No element is lost or duplicated: what the store held is in the store or was given to a client. */
  lemma {:induction false} HandleBalance(st: State)
    requires Good(st, [], None)
    ensures Balance(Handle(st)) == Balance(st)
    decreases |st.waits.Keys|, |st.ready|
  {
    hide Good, Drain, Total, Given;
    if st.ready != [] {
      RoundShrinks(st, {});
      DrainBalance(st.(ready := []), st.ready);
      HandleBalance(Drain(st.(ready := []), st.ready));
    }
  }

  // ---- whole runs ----

  /** `blockForKeys`: the client joins the end of the list of each of its keys. */
  function Block(st: State, c: Client, w: Wait): State {
    st.(blocking := Joined(st.blocking, c, w.keys), waits := st.waits[c := w])
  }

  function Joined(blocking: map<Key, seq<Client>>, c: Client, ks: set<Key>): map<Key, seq<Client>> {
    map k | k in blocking.Keys + ks ::
      if k !in ks then blocking[k] else if k in blocking then blocking[k] + [c] else [c]
  }

  datatype Event =
    | Wants(client: Client, wait: Wait)       // a blocking command that finds nothing
    | Creates(key: Key, obj: Obj)             // dbAdd
    | Changes(key: Key, elems: seq<Elem>)     // an existing list or sorted set changes but stays non-empty
    | Overwrites(key: Key, obj: Obj)          // dbOverwrite, which signals nobody: SORT and GEORADIUS with STORE
    | Deletes(key: Key)
    | Leaves(client: Client)                  // timeout or disconnection
    | Serves                                  // handleClientsBlockedOnKeys, after every command

  predicate Enabled(st: State, e: Event) {
    match e
    case Wants(c, w) =>
      c !in st.waits && w.keys != {} && forall k | k in w.keys && k in st.store :: !Matches(st.store[k], w)
    case Creates(k, o) => k !in st.store && (o.Other? || o.elems != [])
    case Changes(k, es) => k in st.store && !st.store[k].Other? && es != []
    case Overwrites(k, o) => k in st.store && (o.Other? || o.elems != [])
    case Deletes(k) => true
    case Leaves(c) => c in st.waits
    case Serves => true
  }

  function Step(st: State, e: Event): State
    requires Good(st, [], None) && Enabled(st, e)
  {
    match e
    case Wants(c, w) => Block(st, c, w)
    case Creates(k, o) =>
      var st1 := if o.Other? then st else Signal(st, k);
      st1.(store := st1.store[k := o])
    case Changes(k, es) => st.(store := st.store[k := if st.store[k].List? then List(es) else ZSet(es)])
    case Overwrites(k, o) => st.(store := st.store[k := o])
    case Deletes(k) => st.(store := st.store - {k})
    case Leaves(c) => Unblock(st, c)
    case Serves => Handle(st)
  }

  lemma BlockGood(st: State, c: Client, w: Wait, m: set<Key>)
    requires Good(st, [], None) && Enabled(st, Wants(c, w))
    ensures Good(Block(st, c, w), [], None)
    ensures NobodyStarves(st, None, m) ==> NobodyStarves(Block(st, c, w), None, m)
  {
    var st' := Block(st, c, w);
    BlockIndexed(st, c, w);
    forall k, d | k in st'.blocking && d in st'.blocking[k] && d != c
      ensures k in st.blocking && d in st.blocking[k]
    {
    }
    hide Indexed, Joined;
  }

  lemma BlockIndexed(st: State, c: Client, w: Wait)
    requires Indexed(st) && c !in st.waits && w.keys != {}
    ensures Indexed(Block(st, c, w))
    ensures forall k | k in Block(st, c, w).blocking && c in Block(st, c, w).blocking[k] :: k in w.keys
  {
    var b := Block(st, c, w).blocking;
    forall k | k in b
      ensures b[k] != [] && NoDup(b[k]) && (c in b[k] <==> k in w.keys)
      ensures forall d | d != c :: d in b[k] <==> k in st.blocking && d in st.blocking[k]
    {
      JoinedAt(st, c, w.keys, k);
    }
    assert b.Keys == st.blocking.Keys + w.keys;
    hide Joined, NoDup;
  }

  lemma JoinedAt(st: State, c: Client, ks: set<Key>, k: Key)
    requires Indexed(st) && c !in st.waits && (k in st.blocking || k in ks)
    ensures var s := Joined(st.blocking, c, ks)[k];
      && s != [] && NoDup(s) && (c in s <==> k in ks)
      && forall d | d != c :: d in s <==> k in st.blocking && d in st.blocking[k]
  {
    assert k in st.blocking ==> c !in st.blocking[k];
  }

  lemma CreateGood(st: State, k: Key, o: Obj, m: set<Key>)
    requires Good(st, [], None) && Enabled(st, Creates(k, o))
    ensures Good(Step(st, Creates(k, o)), [], None)
    ensures NobodyStarves(st, None, m) ==> NobodyStarves(Step(st, Creates(k, o)), None, m - {k})
  {
    if !o.Other? { SignalGood(st, [], None, k, m); }
    hide ReadyAgree;
  }

  /** The key an operation overlooks: overwritten, not ready, with somebody waiting for what it becomes. */
  ghost predicate Overlooks(st: State, k: Key, o: Obj) {
    !o.Other? && k !in st.readySet && exists c :: c in st.waits && k in st.waits[c].keys && Matches(o, st.waits[c])
  }

  /** The keys on which clients may starve after an event, from those before: a key that is overlooked joins them; one
      that is created, deleted, served or overwritten otherwise leaves them. */
  ghost function Excepted(st: State, e: Event, m: set<Key>): set<Key>
    requires Good(st, [], None)
  {
    match e
    case Creates(k, _) => m - {k}
    case Overwrites(k, o) => if Overlooks(st, k, o) then m + {k} else m - {k}
    case Deletes(k) => m - {k}
    case Serves => m - Handled(st)
    case _ => m
  }

  lemma SmallStepsGood(st: State, e: Event, m: set<Key>)
    requires Good(st, [], None) && Enabled(st, e) && (e.Changes? || e.Deletes? || e.Overwrites?)
    ensures Good(Step(st, e), [], None)
    ensures NobodyStarves(st, None, m) ==> NobodyStarves(Step(st, e), None, Excepted(st, e, m))
  {
    assert ReadyAgree(Step(st, e), []);
    hide ReadyAgree;
  }

  /** Every operation keeps the indexes in agreement, and starves nobody who did not starve before, except on a key
      it overlooks. */
  lemma StepGood(st: State, e: Event, m: set<Key>)
    requires Good(st, [], None) && Enabled(st, e)
    ensures Good(Step(st, e), [], None)
    ensures NobodyStarves(st, None, m) ==> NobodyStarves(Step(st, e), None, Excepted(st, e, m))
  {
    hide Good, NobodyStarves;
    match e {
      case Wants(c, w) => BlockGood(st, c, w, m);
      case Creates(k, o) => CreateGood(st, k, o, m);
      case Leaves(c) => UnblockGood(st, c, [], None, m);
      case Serves =>
        HandleKeeps(st);
        if NobodyStarves(st, None, m) { HandleGood(st, m); }
      case _ => SmallStepsGood(st, e, m);
    }
  }

  lemma {:induction false} HandleKeeps(st: State)
    requires Good(st, [], None)
    ensures Good(Handle(st), [], None)
    decreases |st.waits.Keys|, |st.ready|
  {
    hide Good, NobodyStarves, Drain;
    if st.ready != [] {
      RoundShrinks(st, {});
      HandleKeeps(Drain(st.(ready := []), st.ready));
    }
  }

  /** Overwriting a key starves nobody if and only if it does not overlook it. */
  lemma OverwriteIff(st: State, k: Key, o: Obj)
    requires Good(st, [], None) && NobodyStarves(st, None, {}) && Enabled(st, Overwrites(k, o))
    ensures NobodyStarves(Step(st, Overwrites(k, o)), None, {}) <==> !Overlooks(st, k, o)
  {
    if !Overlooks(st, k, o) {
      StepGood(st, Overwrites(k, o), {});
      assert {} - {k} == {};
    } else {
      var c :| c in st.waits && k in st.waits[c].keys && Matches(o, st.waits[c]);
      assert k in st.blocking && c in st.blocking[k];
    }
  }

  /** The events can happen one after the other. */
  ghost predicate Possible(st: State, es: seq<Event>)
    decreases |es|
  {
    Good(st, [], None) && (es == [] || (Enabled(st, es[0]) && Possible(Step(st, es[0]), es[1..])))
  }

  ghost function Final(st: State, es: seq<Event>): State
    requires Possible(st, es)
    decreases |es|
  {
    if es == [] then st else Final(Step(st, es[0]), es[1..])
  }

  /** The keys on which clients may starve after a run, from those before. */
  ghost function ExceptedAfter(st: State, es: seq<Event>, m: set<Key>): set<Key>
    requires Possible(st, es)
    decreases |es|
  {
    if es == [] then m else ExceptedAfter(Step(st, es[0]), es[1..], Excepted(st, es[0], m))
  }

  lemma {:induction false} RunGood(st: State, es: seq<Event>, m: set<Key>)
    requires NobodyStarves(st, None, m) && Possible(st, es)
    ensures Good(Final(st, es), [], None) && NobodyStarves(Final(st, es), None, ExceptedAfter(st, es, m))
    decreases |es|
  {
    hide Good, NobodyStarves, Step, Excepted;
    if es != [] {
      StepGood(st, es[0], m);
      RunGood(Step(st, es[0]), es[1..], Excepted(st, es[0], m));
    }
  }

  /** Nobody is blocked and nothing is stored. */
  function Quiet(): State { State(map[], map[], [], {}, map[], []) }

  /** Once the ready keys are handled, in every run, no client waits for elements that are there, except on keys that
      were overlooked and not served, overwritten, deleted or created again since. */
  lemma RunFeeds(es: seq<Event>, k: Key, c: Client)
    requires Possible(Quiet(), es)
    ensures Good(Final(Quiet(), es), [], None)
    ensures var st := Handle(Final(Quiet(), es));
      k in st.store && c in st.waits && k in st.waits[c].keys && Matches(st.store[k], st.waits[c]) ==>
        k in ExceptedAfter(Quiet(), es, {}) - Handled(Final(Quiet(), es))
  {
    assert NobodyStarves(Quiet(), None, {});
    RunGood(Quiet(), es, {});
    HandleGood(Final(Quiet(), es), ExceptedAfter(Quiet(), es, {}));
    hide Good, Possible, Final, ExceptedAfter, Handle, Handled;
  }

  /** Whatever can happen next can happen. */
  lemma {:induction false} Then(st: State, es: seq<Event>, e: Event, st': State)
    requires Possible(st, es) && Good(Final(st, es), [], None) && Enabled(Final(st, es), e)
        && Step(Final(st, es), e) == st'
    ensures Possible(st, es + [e]) && Final(st, es + [e]) == st' && Good(st', [], None)
    decreases |es|
  {
    if es == [] {
      assert (es + [e])[1..] == [];
      StepGood(st, e, {});
      hide Good, Step, Enabled;
    } else {
      hide Good, Step, Enabled;
      Then(Step(st, es[0]), es[1..], e, st');
      assert (es + [e])[1..] == es[1..] + [e];
    }
  }

  /** Client c waits for a list at key k, and the store is as given. */
  function Waiting(c: Client, k: Key, store: map<Key, Obj>): State {
    State(map[k := [c]], map[c := Wait(OnList, {k}, None, true)], [], {}, store, [])
  }

  lemma QuietWants(c: Client, k: Key)
    ensures Good(Quiet(), [], None) && var e := Wants(c, Wait(OnList, {k}, None, true));
      Enabled(Quiet(), e) && Step(Quiet(), e) == Waiting(c, k, map[])
  {
    assert Step(Quiet(), Wants(c, Wait(OnList, {k}, None, true))).blocking == map[k := [c]];
  }

  /** Neither a string nor overwriting it signals the key. */
  lemma WaitingSteps(c: Client, k: Key, v: Elem)
    requires Good(Waiting(c, k, map[]), [], None) && Good(Waiting(c, k, map[k := Other]), [], None)
    requires Good(Waiting(c, k, map[k := List([v])]), [], None)
    ensures var st, e := Waiting(c, k, map[]), Creates(k, Other);
      Enabled(st, e) && Step(st, e) == Waiting(c, k, map[k := Other])
    ensures var st, e := Waiting(c, k, map[k := Other]), Overwrites(k, List([v]));
      Enabled(st, e) && Step(st, e) == Waiting(c, k, map[k := List([v])])
    ensures var st := Waiting(c, k, map[k := List([v])]); Enabled(st, Serves) && Step(st, Serves) == st
  {
    hide Good;
  }

  lemma WaitingGood(c: Client, k: Key, o: Obj)
    requires o.Other? || o.elems != []
    ensures Good(Waiting(c, k, map[k := o]), [], None) && Good(Waiting(c, k, map[]), [], None)
  {
  }

  /** A client waits for a list at a key that holds a string; SORT with STORE puts a list there and the client goes on
      waiting. */
  lemma OverwriteStarves(c: Client, k: Key, v: Elem) returns (es: seq<Event>)
    ensures Possible(Quiet(), es) && |es| > 0 && es[|es| - 1] == Serves
    ensures var st := Final(Quiet(), es);
      k in st.store && st.store[k] == List([v]) && c in st.waits && k in st.waits[c].keys
          && Matches(st.store[k], st.waits[c])
  {
    QuietWants(c, k);
    WaitingGood(c, k, Other);
    WaitingGood(c, k, List([v]));
    WaitingSteps(c, k, v);
    var e := Wants(c, Wait(OnList, {k}, None, true));
    es := [];
    assert Possible(Quiet(), es) && Final(Quiet(), es) == Quiet();
    hide Good, Step, Enabled, Possible, Final;
    Then(Quiet(), es, e, Waiting(c, k, map[]));
    es := es + [e];
    Then(Quiet(), es, Creates(k, Other), Waiting(c, k, map[k := Other]));
    es := es + [Creates(k, Other)];
    Then(Quiet(), es, Overwrites(k, List([v])), Waiting(c, k, map[k := List([v])]));
    es := es + [Overwrites(k, List([v]))];
    Then(Quiet(), es, Serves, Waiting(c, k, map[k := List([v])]));
    es := es + [Serves];
  }
}
