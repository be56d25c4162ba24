/** The functions of src/blocked.c on the server's fields, loop by loop, proved against `Blocked`. */
module BlockedObject {
  import opened Options
  import opened Blocked

  class Blocking {
    var blocking: map<Key, seq<Client>>
    var waits: map<Client, Wait>
    var ready: seq<Key>
    var readySet: set<Key>
    var store: map<Key, Obj>
    var replies: seq<Reply>

    ghost function View(): State
      reads this
    {
      State(blocking, waits, ready, readySet, store, replies)
    }

    constructor ()
      ensures Good(View(), [], None) && store == map[] && waits == map[]
    {
      blocking, waits, ready, readySet, store, replies := map[], map[], [], {}, map[], [];
    }

    /** `blockForKeys`: keys named twice count once. */
    method BlockForKeys(c: Client, kind: Kind, keys: seq<Key>, target: Option<Key>, head: bool)
      modifies this`blocking, this`waits
      ensures View() == Block(old(View()), c, Wait(kind, Named(keys), target, head))
    {
      var mine: set<Key> := {};
      JoinedNone(blocking, c);
      for j := 0 to |keys|
        invariant mine == Named(keys[..j])
        invariant blocking == Joined(old(blocking), c, mine) && waits == old(waits)
      {
        assert keys[..j + 1] == keys[..j] + [keys[j]];
        JoinedMore(old(blocking), c, mine, keys[j]);
        hide Joined;
        if keys[j] !in mine {
          blocking := blocking[keys[j] := if keys[j] in blocking then blocking[keys[j]] + [c] else [c]];
        }
        mine := mine + {keys[j]};
      }
      assert keys[..|keys|] == keys;
      waits := waits[c := Wait(kind, mine, target, head)];
    }

    /** `unblockClientWaitingData`. */
    method UnblockClientWaitingData(c: Client)
      requires Indexed(View()) && c in waits
      modifies this`blocking, this`waits
      ensures View() == Unblock(old(View()), c)
    {
      var left, mine := waits[c].keys, waits[c].keys;
      ghost var b0 := blocking;
      LeftNone(b0, c);
      while left != {}
        invariant left <= mine && waits == old(waits) && blocking == LeftOf(b0, c, mine - left)
        decreases |left|
      {
        var k :| k in left;
        ghost var done := mine - left;
        LeftMore(b0, c, done, k);
        assert mine - (left - {k}) == done + {k};
        left := left - {k};
        hide LeftOf, Del;
        var rest := Del(blocking[k], c);
        if rest == [] { blocking := blocking - {k}; } else { blocking := blocking[k := rest]; }
      }
      assert mine - {} == mine;
      LeftAll(old(View()), c);
      waits := waits - {c};
    }

    /** `signalKeyAsReady`. */
    method SignalKeyAsReady(k: Key)
      modifies this`ready, this`readySet
      ensures View() == Signal(old(View()), k)
    {
      if k !in blocking { return; }
      if k in readySet { return; }
      ready, readySet := ready + [k], readySet + {k};
    }

    /** `serveClientBlockedOnList` with the pop before it and the undo after it. */
    method ServeClient(key: Key, c: Client)
      requires Indexed(View()) && c in waits && key in store && store[key].List? && store[key].elems != []
      modifies this
      ensures View() == ServeOne(old(View()), key, c)
    {
      hide Taken, Left, Back, Del;
      var w, s := waits[c], store[key].elems;
      var v := Taken(s, w.head);
      store := store[key := List(Left(s, w.head))];
      StoreIndexed(old(View()), View());
      hide Indexed;
      UnblockClientWaitingData(c);
      hide Rest;
      if w.target.None? {
        replies := replies + [Gave(c, v)];
      } else if w.target.value in store && !store[w.target.value].List? {
        store, replies := store[key := List(Back(Left(s, w.head), w.head, v))], replies + [WrongType(c)];
      } else {
        PushToTarget(w.target.value, v);
        replies := replies + [Moved(c, v)];
      }
    }

    /** `rpoplpushHandlePush`. */
    method PushToTarget(k: Key, v: Elem)
      requires k in store ==> store[k].List?
      modifies this`ready, this`readySet, this`store
      ensures View() == PushTo(old(View()), k, v)
      ensures k in store && store[k] == List([v] + if k in old(store) then old(store)[k].elems else [])
    {
      if k in store {
        store := store[k := List([v] + store[k].elems)];
      } else {
        SignalKeyAsReady(k);
        store := store[k := List([v])];
      }
    }

    /** Move the first client of a waiting list to its end. */
    method RotateClients(key: Key)
      requires key in blocking && blocking[key] != []
      modifies this`blocking
      ensures View() == Rotate(old(View()), key)
    {
      var c := blocking[key][0];
      blocking := blocking[key := blocking[key][1..] + [c]];
    }

    /** The list branch of `handleClientsBlockedOnKeys`. */
    method ServeClientsOnList(key: Key, ghost l: seq<Key>)
      requires Good(View(), l, Some(key)) && key in store && store[key].List?
      modifies this
      ensures View() == ServeList(old(View()), key, if key in old(blocking) then |old(blocking)[key]| else 0, l)
    {
      hide Good, ServeOne;
      var n: nat := if key in blocking then |blocking[key]| else 0;
      while n > 0
        invariant Good(View(), l, Some(key)) && key in store && store[key].List?
        invariant n > 0 ==> key in blocking && n <= |blocking[key]|
        invariant ServeList(View(), key, n, l)
            == ServeList(old(View()), key, if key in old(blocking) then |old(blocking)[key]| else 0, l)
        decreases n
      {
        FirstWaits(View(), l, Some(key), key);
        var c := blocking[key][0];
        if waits[c].kind != OnList {
          RotateGood(View(), l, Some(key), key, {});
          RotateClients(key);
        } else if store[key].elems == [] {
          return;
        } else {
          ServeOneGood(View(), l, key, c, {});
          ServeOneFacts(View(), key, c);
          ServeClient(key, c);
        }
        n := n - 1;
      }
    }

    /** `genericZpopCommand` for one unblocked client. */
    method PopForClient(key: Key, c: Client)
      requires Indexed(View()) && c in waits && key in store && store[key].ZSet? && store[key].elems != []
      modifies this
      ensures View() == PopOne(old(View()), key, c)
    {
      hide Taken, Left, Del, Indexed;
      var s, head := store[key].elems, waits[c].head;
      UnblockClientWaitingData(c);
      hide Rest;
      store := if |s| == 1 then store - {key} else store[key := ZSet(Left(s, head))];
      replies := replies + [Gave(c, Taken(s, head))];
    }

    /** The sorted set branch. */
    method ServeClientsOnZSet(key: Key, ghost l: seq<Key>)
      requires Good(View(), l, Some(key)) && key in store && store[key].ZSet? && store[key].elems != []
      modifies this
      ensures View() == ServeZSet(old(View()), key, if key in old(blocking) then |old(blocking)[key]| else 0, l)
    {
      hide Good, PopOne;
      var n: nat := if key in blocking then |blocking[key]| else 0;
      while n > 0 && key in store
        invariant Good(View(), l, Some(key)) && (key in store ==> store[key].ZSet? && store[key].elems != [])
        invariant n > 0 ==> key in blocking && n <= |blocking[key]|
        invariant ServeZSet(View(), key, n, l)
            == ServeZSet(old(View()), key, if key in old(blocking) then |old(blocking)[key]| else 0, l)
        decreases n
      {
        FirstWaits(View(), l, Some(key), key);
        var c := blocking[key][0];
        if waits[c].kind != OnZSet {
          RotateGood(View(), l, Some(key), key, {});
          RotateClients(key);
        } else {
          PopOneGood(View(), l, key, c, {});
          PopForClient(key, c);
        }
        n := n - 1;
      }
    }

    /** One ready key. */
    method ServeReadyKey(key: Key, ghost l: seq<Key>)
      requires Good(View(), [key] + l, None)
      modifies this
      ensures View() == ServeKey(old(View()), key, l)
    {
      hide Good, Visited, ServeList, ServeZSet;
      TakeGood(View(), key, l, {});
      readySet := readySet - {key};
      if key in store && store[key].List? {
        ServeListDoneHere(old(View()), View(), key, l);
        ServeClientsOnList(key, l);
        if store[key].elems == [] { store := store - {key}; }
      } else if key in store && store[key].ZSet? {
        ServeClientsOnZSet(key, l);
      }
    }

    /** `handleClientsBlockedOnKeys`: take the ready list, serve its keys, and again while keys became ready. */
    method HandleClientsBlockedOnKeys()
      requires Good(View(), [], None)
      modifies this
      ensures View() == Handle(old(View()))
    {
      hide Good, Drain;
      while ready != []
        invariant Good(View(), [], None) && Handle(View()) == Handle(old(View()))
        decreases |waits.Keys|, |ready|
      {
        RoundShrinks(View(), {});
        var l := ready;
        ready := [];
        ServeReadyKeys(l);
      }
    }

    /** The inner loop over the keys taken off the ready list. */
    method ServeReadyKeys(keys: seq<Key>)
      requires Good(View(), keys, None)
      modifies this
      ensures View() == Drain(old(View()), keys)
    {
      hide Good, ServeKey;
      var l := keys;
      while l != []
        invariant Good(View(), l, None) && Drain(View(), l) == Drain(old(View()), keys)
        decreases |l|
      {
        DrainStep(View(), l, {});
        ServeReadyKey(l[0], l[1..]);
        l := l[1..];
      }
    }
  }

  lemma ServeListDoneHere(st: State, st0: State, key: Key, l: seq<Key>)
    requires Good(st, [key] + l, None) && st0 == st.(readySet := st.readySet - {key}) && key in st.store
        && st.store[key].List?
    ensures Good(st0, l, Some(key))
    ensures var n := if key in st.blocking then |st.blocking[key]| else 0;
      key in ServeList(st0, key, n, l).store && ServeList(st0, key, n, l).store[key].List?
  {
    hide Good, Visited, ServeList;
    TakeGood(st, key, l, {});
    var n := if key in st.blocking then |st.blocking[key]| else 0;
    SameVisited(st, st0, key, n);
    ServeListDone(st0, key, n, l, {});
  }

  // ---- partial waiting lists ----

  function Named(keys: seq<Key>): set<Key> { set k | k in keys }

  lemma JoinedNone(b: map<Key, seq<Client>>, c: Client)
    ensures Joined(b, c, {}) == b
  {
  }

  lemma JoinedMore(b: map<Key, seq<Client>>, c: Client, ks: set<Key>, k: Key)
    ensures var b1 := Joined(b, c, ks);
      if k in ks then Joined(b, c, ks + {k}) == b1
      else Joined(b, c, ks + {k}) == b1[k := if k in b1 then b1[k] + [c] else [c]]
  {
    if k in ks { assert ks + {k} == ks; }
  }

  /** The waiting lists after the client left those of some keys. */
  ghost function LeftOf(b: map<Key, seq<Client>>, c: Client, ks: set<Key>): map<Key, seq<Client>> {
    map k | k in b && (k in ks ==> Del(b[k], c) != []) :: if k in ks then Del(b[k], c) else b[k]
  }

  lemma LeftNone(b: map<Key, seq<Client>>, c: Client)
    ensures LeftOf(b, c, {}) == b
  {
  }

  lemma LeftMore(b: map<Key, seq<Client>>, c: Client, ks: set<Key>, k: Key)
    requires k in b && k !in ks
    ensures var b1 := LeftOf(b, c, ks); var rest := Del(b[k], c);
      && k in b1 && b1[k] == b[k]
      && LeftOf(b, c, ks + {k}) == if rest == [] then b1 - {k} else b1[k := rest]
  {
    hide Del;
  }

  lemma LeftAll(st: State, c: Client)
    requires Indexed(st) && c in st.waits
    ensures LeftOf(st.blocking, c, st.waits[c].keys) == Unblock(st, c).blocking
  {
    hide Del;
  }

  lemma StoreIndexed(st: State, st': State)
    requires Indexed(st) && st'.blocking == st.blocking && st'.waits == st.waits
    ensures Indexed(st')
  {
  }
}
