/** What the rewritten commands do when they are replayed: they rebuild the dataset on an empty server. */
module AofReplay {
  import opened Bytes
  import opened Options
  import opened AofFormat
  import opened AofRewrite

  datatype Value =
    | StrV(s: bytes)
    | ListV(elems: seq<bytes>)
    | SetV(members: set<bytes>)
    | ZSetV(scores: map<bytes, bytes>)
    | HashV(fields: map<bytes, bytes>)

  datatype Binding = Binding(value: Value, expire: Option<nat>)

  type Keyspace = map<bytes, Binding>

  datatype Server = Server(dbs: seq<Keyspace>, selected: nat)

  /** Commands other than those the rewriter emits. */
  type Others = (Server, Argv) -> Server

  function Empty(t: Type): Value {
    match t
    case ListType => ListV([])
    case SetType => SetV({})
    case ZSetType => ZSetV(map[])
    case HashType => HashV(map[])
  }

  predicate HasType(v: Value, t: Type) {
    match t
    case ListType => v.ListV?
    case SetType => v.SetV?
    case ZSetType => v.ZSetV?
    case HashType => v.HashV?
  }

  /** Add one item: an element; a score and a member; a field and a value. */
  function Put(t: Type, v: Value, item: Argv): (r: Value)
    requires HasType(v, t) && |item| == Width(t)
    ensures HasType(r, t)
  {
    match t
    case ListType => ListV(v.elems + [item[0]])
    case SetType => SetV(v.members + {item[0]})
    case ZSetType => ZSetV(v.scores[item[1] := item[0]])
    case HashType => HashV(v.fields[item[0] := item[1]])
  }

  /** The arguments of RPUSH, SADD, ZADD or HMSET after the key, item by item. */
  function Add(t: Type, v: Value, args: Argv): (r: Value)
    requires HasType(v, t)
    ensures HasType(r, t)
    decreases |args|
  {
    if |args| < Width(t) then v else Add(t, Put(t, v, args[..Width(t)]), args[Width(t)..])
  }

  function AddTo(t: Type, db: Keyspace, key: bytes, args: Argv): Keyspace {
    if |args| % Width(t) != 0 || args == [] then db
    else if key !in db then db[key := Binding(Add(t, Empty(t), args), None)]
    else if !HasType(db[key].value, t) then db
    else db[key := db[key].(value := Add(t, db[key].value, args))]
  }

  /** A data command on one database. */
  function Change(db: Keyspace, argv: Argv): Keyspace
    requires |argv| >= 2
  {
    var key := argv[1];
    if argv[0] == SET then (if |argv| == 3 then db[key := Binding(StrV(argv[2]), None)] else db)
    else if argv[0] == RPUSH then AddTo(ListType, db, key, argv[2..])
    else if argv[0] == SADD then AddTo(SetType, db, key, argv[2..])
    else if argv[0] == ZADD then AddTo(ZSetType, db, key, argv[2..])
    else if argv[0] == HMSET then AddTo(HashType, db, key, argv[2..])
    else if argv[0] == PEXPIREAT && |argv| == 3 && key in db && Atoi(argv[2]) >= 0
    then db[key := db[key].(expire := Some(Atoi(argv[2])))]
    else db
  }

  predicate Emitted(name: bytes) {
    name == SET || name == RPUSH || name == SADD || name == ZADD || name == HMSET || name == PEXPIREAT
  }

  /** Execute one command. While loading, PEXPIREAT sets the time even when it has passed. */
  function Apply(st: Server, argv: Argv, other: Others): Server {
    if |argv| < 2 then other(st, argv)
    else if argv[0] == SELECT then
      (if 0 <= Atoi(argv[1]) < |st.dbs| then st.(selected := Atoi(argv[1])) else st)
    else if Emitted(argv[0]) then
      (if st.selected < |st.dbs| then st.(dbs := st.dbs[st.selected := Change(st.dbs[st.selected], argv)]) else st)
    else other(st, argv)
  }

  function ApplyAll(st: Server, cmds: seq<Argv>, other: Others): Server
    decreases |cmds|
  {
    if cmds == [] then st else ApplyAll(Apply(st, cmds[0], other), cmds[1..], other)
  }

  lemma {:induction false} ApplyAppend(st: Server, a: seq<Argv>, b: seq<Argv>, other: Others)
    ensures ApplyAll(st, a + b, other) == ApplyAll(ApplyAll(st, a, other), b, other)
    decreases |a|
  {
    hide Apply;
    if a == [] {
      assert a + b == b;
    } else {
      ApplyAppend(Apply(st, a[0], other), a[1..], b, other);
      assert (a + b)[1..] == a[1..] + b;
    }
  }

  // ---- objects ----

  function PutAll(t: Type, v: Value, items: seq<Argv>): (r: Value)
    requires HasType(v, t) && forall i | 0 <= i < |items| :: |items[i]| == Width(t)
    ensures HasType(r, t)
    decreases |items|
  {
    if items == [] then v else PutAll(t, Put(t, v, items[0]), items[1..])
  }

  /** The value an object stands for. */
  function ValueOf(o: Object): Value
    requires Shaped(o)
  {
    match o
    case Str(v) => StrV(v)
    case Items(t, items) => PutAll(t, Empty(t), items)
  }

  lemma {:induction false} AddFlatten(t: Type, v: Value, items: seq<Argv>)
    requires HasType(v, t) && Uniform(items, Width(t))
    ensures Add(t, v, Flatten(items)) == PutAll(t, v, items)
    decreases |items|
  {
    hide Put;
    if items != [] {
      var args := Flatten(items);
      assert args[..Width(t)] == items[0] && args[Width(t)..] == Flatten(items[1..]);
      AddFlatten(t, Put(t, v, items[0]), items[1..]);
    }
  }

  lemma {:induction false} PutAllAppend(t: Type, v: Value, a: seq<Argv>, b: seq<Argv>)
    requires HasType(v, t) && Uniform(a, Width(t)) && Uniform(b, Width(t))
    ensures Uniform(a + b, Width(t)) && PutAll(t, v, a + b) == PutAll(t, PutAll(t, v, a), b)
    decreases |a|
  {
    hide Put;
    if a == [] {
      assert a + b == b;
    } else {
      PutAllAppend(t, Put(t, v, a[0]), a[1..], b);
      assert (a + b)[1..] == a[1..] + b;
    }
  }

  /** What a list of items stands for: the elements in order, the set of them, or, members or fields being
      distinct, the map that gives each its score or value. */
  lemma {:induction false} PutAllMeans(t: Type, items: seq<Argv>)
    requires Uniform(items, Width(t))
    ensures var r := PutAll(t, Empty(t), items);
      && (t.ListType? ==>
            r.elems == seq(|items|, (i: nat) requires i < |items| => if items[i] == [] then [] else items[i][0]))
      && (t.SetType? ==> forall m :: m in r.members <==> exists i :: 0 <= i < |items| && items[i][0] == m)
      && (t.ZSetType? && DistinctAt(items, 1) ==>
            forall m, s :: (m in r.scores && r.scores[m] == s) <==> exists i :: 0 <= i < |items| && items[i] == [s, m])
      && (t.HashType? && DistinctAt(items, 0) ==>
            forall f, v :: (f in r.fields && r.fields[f] == v) <==> exists i :: 0 <= i < |items| && items[i] == [f, v])
    decreases |items|
  {
    if items != [] {
      var n := |items| - 1;
      var a, last := items[..n], items[n];
      PutAllMeans(t, a);
      PutAllAppend(t, Empty(t), a, [last]);
      assert a + [last] == items;
    }
  }

  ghost predicate DistinctAt(items: seq<Argv>, k: nat) {
    forall i, j | 0 <= i < j < |items| && k < |items[i]| && k < |items[j]| :: items[i][k] != items[j][k]
  }

  // ---- entries ----

  /** An aggregate without items leaves no trace. */
  predicate Hollow(o: Object) { o.Items? && o.items == [] }

  ghost function WithEntry(db: Keyspace, e: Entry): Keyspace
    requires Shaped(e.obj)
  {
    if Hollow(e.obj) then db else db[e.key := Binding(ValueOf(e.obj), e.expire)]
  }

  /** The server with another keyspace in its selected database. */
  function Now(st: Server, db: Keyspace): Server
    requires st.selected < |st.dbs|
  {
    st.(dbs := st.dbs[st.selected := db])
  }

  lemma NowNow(st: Server, a: Keyspace, b: Keyspace)
    requires st.selected < |st.dbs|
    ensures Now(st, a).dbs[st.selected] == a && Now(Now(st, a), b) == Now(st, b)
    ensures Now(st, st.dbs[st.selected]) == st
  {
  }

  /** A key being rebuilt: absent before its first items, then bound to what it has so far. */
  ghost function Growing(db: Keyspace, key: bytes, t: Type, items: seq<Argv>): Keyspace
    requires Uniform(items, Width(t))
  {
    if items == [] then db else db[key := Binding(PutAll(t, Empty(t), items), None)]
  }

  /** One chunk adds its items. */
  lemma ChunkReplays(db: Keyspace, key: bytes, t: Type, a: seq<Argv>, b: seq<Argv>)
    requires key !in db && Uniform(a, Width(t)) && Uniform(b, Width(t)) && b != []
    ensures Uniform(a + b, Width(t))
    ensures Change(Growing(db, key, t, a), Chunk(Adder(t), key, b)) == Growing(db, key, t, a + b)
  {
    var argv := Chunk(Adder(t), key, b);
    assert argv[2..] == Flatten(b);
    FlattenLength(b, Width(t));
    assert (Width(t) * |b|) % Width(t) == 0;
    PutAllAppend(t, Empty(t), a, b);
    AddFlatten(t, PutAll(t, Empty(t), a), b);
    hide Add, PutAll, Flatten, Chunk;
    assert Change(Growing(db, key, t, a), argv) == AddTo(t, Growing(db, key, t, a), key, Flatten(b));
  }

  lemma {:induction false} ChunksReplay(st: Server, db: Keyspace, key: bytes, t: Type, a: seq<Argv>, b: seq<Argv>,
      other: Others)
    requires st.selected < |st.dbs| && key !in db && Uniform(a, Width(t)) && Uniform(b, Width(t))
    ensures Uniform(a + b, Width(t))
    ensures ApplyAll(Now(st, Growing(db, key, t, a)), Chunks(Adder(t), key, b), other)
        == Now(st, Growing(db, key, t, a + b))
    decreases |b|
  {
    hide Change, Growing, Chunk;
    if b == [] {
      assert a + b == a;
    } else {
      var n := if |b| <= ITEMS_PER_CMD then |b| else ITEMS_PER_CMD;
      var c := Chunk(Adder(t), key, b[..n]);
      ChunkReplays(db, key, t, a, b[..n]);
      ChunkApplies(Now(st, Growing(db, key, t, a)), t, key, b[..n], other);
      NowNow(st, Growing(db, key, t, a), Growing(db, key, t, a + b[..n]));
      ChunksReplay(st, db, key, t, a + b[..n], b[n..], other);
      assert a + b[..n] + b[n..] == a + b;
      assert Chunks(Adder(t), key, b) == [c] + Chunks(Adder(t), key, b[n..]) by {
        if n == |b| { assert b[..n] == b && b[n..] == []; }
      }
      hide Chunks, Apply;
      assert ([c] + Chunks(Adder(t), key, b[n..]))[1..] == Chunks(Adder(t), key, b[n..]);
    }
  }

  lemma ChunkApplies(st: Server, t: Type, key: bytes, items: seq<Argv>, other: Others)
    requires st.selected < |st.dbs|
    ensures var c := Chunk(Adder(t), key, items);
      |c| >= 2 && Apply(st, c, other) == Now(st, Change(st.dbs[st.selected], c))
  {
    hide Change;
  }

  lemma {:induction false} ObjectReplays(st: Server, e: Entry, other: Others)
    requires st.selected < |st.dbs| && Shaped(e.obj) && e.key !in st.dbs[st.selected]
    ensures ApplyAll(st, ObjectCommands(e.key, e.obj), other)
        == Now(st, WithEntry(st.dbs[st.selected], e.(expire := None)))
  {
    var db := st.dbs[st.selected];
    NowNow(st, db, db);
    match e.obj {
      case Str(v) =>
        assert [[SET, e.key, v]][1..] == [];
      case Items(t, items) =>
        ChunksReplay(st, db, e.key, t, [], items, other);
        assert [] + items == items;
    }
  }

  /** The commands of a key rebuild it, whatever else the database holds. */
  lemma EntryReplays(st: Server, e: Entry, other: Others)
    requires st.selected < |st.dbs| && Shaped(e.obj) && e.key !in st.dbs[st.selected]
    ensures ApplyAll(st, EntryCommands(e), other) == Now(st, WithEntry(st.dbs[st.selected], e))
  {
    var db := st.dbs[st.selected];
    var db1 := WithEntry(db, e.(expire := None));
    ObjectReplays(st, e, other);
    ApplyAppend(st, ObjectCommands(e.key, e.obj), ExpireCommands(e.key, e.expire), other);
    NowNow(st, db1, WithEntry(db, e));
    if e.expire.Some? { ExpireReplays(Now(st, db1), e.key, e.expire.value, other); }
    hide ObjectCommands, ValueOf, Apply, Digits;
    assert e.expire.Some? && !Hollow(e.obj) ==>
        db1[e.key := db1[e.key].(expire := e.expire)] == WithEntry(db, e);
  }

  lemma ExpireReplays(st: Server, key: bytes, when: nat, other: Others)
    requires st.selected < |st.dbs|
    ensures var db := st.dbs[st.selected];
      ApplyAll(st, ExpireCommands(key, Some(when)), other)
      == Now(st, if key in db then db[key := db[key].(expire := Some(when))] else db)
  {
    AtoiDigits(when, []);
    assert Digits(when) + [] == Digits(when);
    assert [[PEXPIREAT, key, Digits(when)]][1..] == [];
    hide Digits, Atoi;
  }

  // ---- databases ----

  ghost predicate DistinctKeys(db: Db) {
    forall i, j | 0 <= i < j < |db| :: db[i].key != db[j].key
  }

  ghost function Build(m: Keyspace, db: Db): Keyspace
    requires ShapedDb(db)
    decreases |db|
  {
    if db == [] then m else Build(WithEntry(m, db[0]), db[1..])
  }

  lemma {:induction false} DbReplays(st: Server, db: Db, other: Others)
    requires st.selected < |st.dbs| && ShapedDb(db) && DistinctKeys(db)
    requires forall i | 0 <= i < |db| :: db[i].key !in st.dbs[st.selected]
    ensures ApplyAll(st, DbCommands(db), other) == Now(st, Build(st.dbs[st.selected], db))
    decreases |db|
  {
    hide EntryCommands, Apply, ValueOf;
    var m := st.dbs[st.selected];
    if db == [] {
      NowNow(st, m, m);
    } else {
      var st1 := Now(st, WithEntry(m, db[0]));
      EntryReplays(st, db[0], other);
      ApplyAppend(st, EntryCommands(db[0]), DbCommands(db[1..]), other);
      NowNow(st, WithEntry(m, db[0]), Build(m, db));
      DbReplays(st1, db[1..], other);
    }
  }

  /** What a rebuilt database holds: exactly its keys that are not empty aggregates, with value and expire. */
  lemma {:induction false} BuildMeans(m: Keyspace, db: Db, k: bytes, b: Binding)
    requires ShapedDb(db) && DistinctKeys(db) && forall i | 0 <= i < |db| :: db[i].key !in m
    ensures (k in Build(m, db) && Build(m, db)[k] == b) <==>
            (k in m && m[k] == b) ||
            exists i :: 0 <= i < |db| && db[i].key == k && !Hollow(db[i].obj)
                && b == Binding(ValueOf(db[i].obj), db[i].expire)
    decreases |db|
  {
    hide ValueOf;
    if db != [] {
      BuildMeans(WithEntry(m, db[0]), db[1..], k, b);
      assert forall i | 1 <= i < |db| :: db[i] == db[1..][i - 1];
    }
  }

  // ---- the whole dataset ----

  ghost predicate ProperDbs(dbs: seq<Db>) {
    forall i | 0 <= i < |dbs| :: ShapedDb(dbs[i]) && DistinctKeys(dbs[i])
  }

  /** Databases below j rebuilt, the others still empty. */
  ghost function Rebuilt(dbs: seq<Db>, j: nat): seq<Keyspace>
    requires ProperDbs(dbs)
  {
    seq(|dbs|, (i: nat) requires i < |dbs| => if i < j then Build(map[], dbs[i]) else map[])
  }

  lemma RebuiltStep(dbs: seq<Db>, j: nat)
    requires ProperDbs(dbs) && j < |dbs|
    ensures Rebuilt(dbs, j)[j := Build(map[], dbs[j])] == Rebuilt(dbs, j + 1)
    ensures Rebuilt(dbs, j)[j] == map[]
  {
    hide Build;
  }

  /** SELECT j and its keys rebuild database j. */
  lemma SelectedReplays(dbs: seq<Db>, j: nat, selected: nat, other: Others)
    requires ProperDbs(dbs) && j < |dbs|
    ensures ApplyAll(Server(Rebuilt(dbs, j), selected), SelectedCommands(dbs[j], j), other).dbs == Rebuilt(dbs, j + 1)
  {
    var st := Server(Rebuilt(dbs, j), selected);
    RebuiltStep(dbs, j);
    if dbs[j] == [] {
      assert st.dbs[j := map[]] == st.dbs;
    } else {
      SelectReplays(st, j, other);
      ApplyAppend(st, [[SELECT, Digits(j)]], DbCommands(dbs[j]), other);
      DbReplays(st.(selected := j), dbs[j], other);
    }
  }

  lemma SelectReplays(st: Server, j: nat, other: Others)
    requires j < |st.dbs|
    ensures ApplyAll(st, [[SELECT, Digits(j)]], other) == st.(selected := j)
  {
    AtoiDigits(j, []);
    assert Digits(j) + [] == Digits(j);
    assert [[SELECT, Digits(j)]][1..] == [];
    hide Digits, Atoi;
  }

  lemma {:induction false} AllReplay(dbs: seq<Db>, j: nat, selected: nat, other: Others)
    requires ProperDbs(dbs) && j <= |dbs|
    ensures ApplyAll(Server(Rebuilt(dbs, j), selected), Commands(dbs[j..], j), other).dbs == Rebuilt(dbs, |dbs|)
    decreases |dbs| - j
  {
    hide SelectedCommands, ProperDbs, Rebuilt;
    if j < |dbs| {
      var st := Server(Rebuilt(dbs, j), selected);
      SelectedReplays(dbs, j, selected, other);
      assert dbs[j..][1..] == dbs[j + 1..];
      ApplyAppend(st, SelectedCommands(dbs[j], j), Commands(dbs[j + 1..], j + 1), other);
      var st1 := ApplyAll(st, SelectedCommands(dbs[j], j), other);
      AllReplay(dbs, j + 1, st1.selected, other);
      assert st1 == Server(Rebuilt(dbs, j + 1), st1.selected);
    }
  }

  function Blank(n: nat): seq<Keyspace> { seq(n, (i: nat) => map[]) }

  /** Replaying the rewritten commands on an empty server rebuilds every database. */
  lemma RewriteRebuilds(dbs: seq<Db>, selected: nat, other: Others)
    requires ProperDbs(dbs)
    ensures ApplyAll(Server(Blank(|dbs|), selected), Commands(dbs, 0), other).dbs == Rebuilt(dbs, |dbs|)
  {
    hide Rebuilt, Blank, ApplyAll, Commands, ProperDbs;
    NoneRebuilt(dbs);
    assert dbs[0..] == dbs;
    AllReplay(dbs, 0, selected, other);
  }

  lemma NoneRebuilt(dbs: seq<Db>)
    requires ProperDbs(dbs)
    ensures Rebuilt(dbs, 0) == Blank(|dbs|)
  {
  }
}
