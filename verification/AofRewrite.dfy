/** The rewriter: writes the commands that rebuild the dataset, 64 items to a command. */
module AofRewrite {
  import opened Bytes
  import opened Options
  import opened AofFormat

  const ITEMS_PER_CMD: nat := 64

  const SELECT: bytes := [83, 69, 76, 69, 67, 84]
  const SET: bytes := [83, 69, 84]
  const RPUSH: bytes := [82, 80, 85, 83, 72]
  const SADD: bytes := [83, 65, 68, 68]
  const ZADD: bytes := [90, 65, 68, 68]
  const HMSET: bytes := [72, 77, 83, 69, 84]
  const PEXPIREAT: bytes := [80, 69, 88, 80, 73, 82, 69, 65, 84]

  datatype Type = ListType | SetType | ZSetType | HashType

  /** The command that adds items of a type, and how many bulk strings an item is. */
  function Adder(t: Type): bytes {
    match t
    case ListType => RPUSH
    case SetType => SADD
    case ZSetType => ZADD
    case HashType => HMSET
  }

  function Width(t: Type): nat { if t.ListType? || t.SetType? then 1 else 2 }

  /** An object as the rewriter sees it: a string, or the items of an aggregate in iteration order. An item is one
      element, or a score and a member, or a field and a value. */
  datatype Object = Str(value: bytes) | Items(t: Type, items: seq<Argv>)

  ghost predicate Uniform(items: seq<Argv>, w: nat) {
    forall i | 0 <= i < |items| :: |items[i]| == w
  }

  ghost predicate Shaped(o: Object) {
    o.Items? ==> Uniform(o.items, Width(o.t))
  }

  /** A key with its object and expire time; a database as its keys in iteration order. */
  datatype Entry = Entry(key: bytes, obj: Object, expire: Option<nat>)

  type Db = seq<Entry>

  // ---- the commands ----

  function Flatten(items: seq<Argv>): Argv {
    if items == [] then [] else items[0] + Flatten(items[1..])
  }

  function Chunk(name: bytes, key: bytes, items: seq<Argv>): Argv { [name, key] + Flatten(items) }

  /** Commands of up to 64 items each. */
  function Chunks(name: bytes, key: bytes, items: seq<Argv>): seq<Argv> {
    if items == [] then []
    else if |items| <= ITEMS_PER_CMD then [Chunk(name, key, items)]
    else [Chunk(name, key, items[..ITEMS_PER_CMD])] + Chunks(name, key, items[ITEMS_PER_CMD..])
  }

  function ObjectCommands(key: bytes, o: Object): seq<Argv> {
    match o
    case Str(v) => [[SET, key, v]]
    case Items(t, items) => Chunks(Adder(t), key, items)
  }

  function ExpireCommands(key: bytes, expire: Option<nat>): seq<Argv> {
    if expire.None? then [] else [[PEXPIREAT, key, Digits(expire.value)]]
  }

  function EntryCommands(e: Entry): seq<Argv> {
    ObjectCommands(e.key, e.obj) + ExpireCommands(e.key, e.expire)
  }

  function DbCommands(db: Db): seq<Argv> {
    if db == [] then [] else EntryCommands(db[0]) + DbCommands(db[1..])
  }

  /** Database j; an empty one is skipped. */
  function SelectedCommands(db: Db, j: nat): seq<Argv> {
    if db == [] then [] else [[SELECT, Digits(j)]] + DbCommands(db)
  }

  /** Databases j, j+1, ... */
  function Commands(dbs: seq<Db>, j: nat): seq<Argv> {
    if dbs == [] then [] else SelectedCommands(dbs[0], j) + Commands(dbs[1..], j + 1)
  }

  // ---- lemmas about chunks ----

  lemma {:induction false} FlattenAppend(a: seq<Argv>, b: seq<Argv>)
    ensures Flatten(a + b) == Flatten(a) + Flatten(b)
  {
    if a == [] {
      assert a + b == b;
    } else {
      FlattenAppend(a[1..], b);
      assert (a + b)[1..] == a[1..] + b;
    }
  }

  lemma {:induction false} FlattenLength(items: seq<Argv>, w: nat)
    requires Uniform(items, w)
    ensures |Flatten(items)| == w * |items|
  {
    if items != [] {
      FlattenLength(items[1..], w);
      assert w * |items| == w + w * (|items| - 1);
    }
  }

  /** Full chunks followed by one more. */
  lemma {:induction false} ChunksAppend(name: bytes, key: bytes, a: seq<Argv>, b: seq<Argv>)
    requires |a| % ITEMS_PER_CMD == 0 && 0 < |b| <= ITEMS_PER_CMD
    ensures Chunks(name, key, a + b) == Chunks(name, key, a) + [Chunk(name, key, b)]
    decreases |a|
  {
    hide Chunk;
    if a == [] {
      assert a + b == b;
    } else {
      ChunksAppend(name, key, a[ITEMS_PER_CMD..], b);
      assert (a + b)[..ITEMS_PER_CMD] == a[..ITEMS_PER_CMD];
      assert (a + b)[ITEMS_PER_CMD..] == a[ITEMS_PER_CMD..] + b;
      assert |a| == ITEMS_PER_CMD ==> a[..ITEMS_PER_CMD] == a && a[ITEMS_PER_CMD..] == [];
    }
  }

  // ---- the emitting loops ----

  /** What has been written after i items: the complete commands, and the begun one with its declared count. */
  ghost function Written(name: bytes, key: bytes, w: nat, items: seq<Argv>, i: nat, count: nat): bytes
    requires count <= i <= |items|
  {
    PrintAll(Chunks(name, key, items[..i - count])) + Begun(name, key, w, items, i, count)
  }

  ghost function Begun(name: bytes, key: bytes, w: nat, items: seq<Argv>, i: nat, count: nat): bytes
    requires count <= i <= |items|
  {
    if count == 0 then []
    else
      var declared := 2 + w * Declared(|items| - (i - count));
      Header(STAR, declared) + Bulks([name, key]) + Bulks(Flatten(items[i - count..i]))
  }

  function Declared(left: nat): nat { if left > ITEMS_PER_CMD then ITEMS_PER_CMD else left }

  /** A begun command that got all its declared items is that command printed. */
  lemma BegunComplete(name: bytes, key: bytes, w: nat, items: seq<Argv>, i: nat, count: nat)
    requires count <= i <= |items| && 0 < count == Declared(|items| - (i - count)) && Uniform(items, w)
    ensures Begun(name, key, w, items, i, count) == Print(Chunk(name, key, items[i - count..i]))
  {
    hide Header, Bulk;
    var part := items[i - count..i];
    FlattenLength(part, w);
    BulksAppend([name, key], Flatten(part));
  }

  /** Then it joins the complete ones. */
  lemma WrittenComplete(name: bytes, key: bytes, w: nat, items: seq<Argv>, i: nat, count: nat)
    requires count <= i <= |items| && 0 < count == Declared(|items| - (i - count)) && Uniform(items, w)
    requires (i - count) % ITEMS_PER_CMD == 0
    ensures Written(name, key, w, items, i, count) == PrintAll(Chunks(name, key, items[..i]))
  {
    hide Print, Chunk, Begun;
    var a, b := items[..i - count], items[i - count..i];
    BegunComplete(name, key, w, items, i, count);
    ChunksAppend(name, key, a, b);
    assert a + b == items[..i];
    PrintAllAppend(Chunks(name, key, a), [Chunk(name, key, b)]);
    PrintOne(Chunk(name, key, b));
  }

  lemma PrintOne(c: Argv)
    ensures PrintAll([c]) == Print(c)
  {
    hide Print;
    assert [c][1..] == [];
  }

  /** One more item of a begun command. */
  lemma BegunMore(name: bytes, key: bytes, w: nat, items: seq<Argv>, i: nat, count: nat)
    requires count <= i < |items|
    ensures var begun := if count > 0 then Begun(name, key, w, items, i, count)
                         else Header(STAR, 2 + w * Declared(|items| - i)) + Bulks([name, key]);
      Begun(name, key, w, items, i + 1, count + 1) == begun + Bulks(items[i])
  {
    hide Header, Bulk;
    var part := items[i - count..i];
    assert items[i - count..i + 1] == part + [items[i]];
    FlattenAppend(part, [items[i]]);
    assert Flatten([items[i]]) == items[i];
    BulksAppend(Flatten(part), items[i]);
  }

  /** `rewriteListObject`, `rewriteSetObject`, `rewriteSortedSetObject` and `rewriteHashObject`, which differ in the
      command and the width of an item only: the count is declared before the items of a command are written. */
  method RewriteItems(name: bytes, key: bytes, w: nat, objs: seq<Argv>, dst: bytes) returns (out: bytes)
    requires Uniform(objs, w)
    ensures out == dst + PrintAll(Chunks(name, key, objs))
  {
    hide Header, Chunks, Flatten, Begun;
    out := dst;
    var count, items := 0, |objs|;
    WrittenNothing(name, key, w, objs);
    for i := 0 to |objs|
      invariant items == |objs| - i && count == i % ITEMS_PER_CMD
      invariant out == dst + Written(name, key, w, objs, i, count)
    {
      out := WriteItem(name, key, w, objs, i, count, out, dst);
      items := items - 1;
      count := count + 1;
      if count == ITEMS_PER_CMD {
        WrittenComplete(name, key, w, objs, i + 1, count);
        WrittenWhole(name, key, w, objs, i + 1);
        count := 0;
      }
    }
    assert objs[..|objs|] == objs;
    if count > 0 { WrittenComplete(name, key, w, objs, |objs|, count); }
    else { WrittenWhole(name, key, w, objs, |objs|); }
  }

  /** One round: begin a command if none is begun, then write the item. */
  method WriteItem(name: bytes, key: bytes, w: nat, objs: seq<Argv>, i: nat, count: nat, sofar: bytes, ghost dst: bytes)
    returns (out: bytes)
    requires count <= i < |objs| && sofar == dst + Written(name, key, w, objs, i, count)
    ensures out == dst + Written(name, key, w, objs, i + 1, count + 1)
  {
    hide Header, Bulk, Chunks, Flatten, Bulks, PrintAll;
    ghost var whole := PrintAll(Chunks(name, key, objs[..i - count]));
    ghost var begun := Begun(name, key, w, objs, i, count);
    BegunMore(name, key, w, objs, i, count);
    assert objs[..i - count] == objs[..i + 1 - (count + 1)];
    assert count == 0 ==> begun == [];
    hide Begun;
    out := sofar;
    if count == 0 {
      out := out + Header(STAR, 2 + w * Declared(|objs| - i)) + Bulks([name, key]);
      begun := Header(STAR, 2 + w * Declared(|objs| - i)) + Bulks([name, key]);
    }
    assert out == dst + (whole + begun);
    Assoc(dst, whole, begun, Bulks(objs[i]));
    out := out + Bulks(objs[i]);
  }

  lemma WrittenNothing(name: bytes, key: bytes, w: nat, items: seq<Argv>)
    ensures Written(name, key, w, items, 0, 0) == []
  {
    assert items[..0] == [];
  }

  lemma WrittenWhole(name: bytes, key: bytes, w: nat, items: seq<Argv>, i: nat)
    requires i <= |items|
    ensures Written(name, key, w, items, i, 0) == PrintAll(Chunks(name, key, items[..i]))
  {
    hide Chunks, PrintAll;
  }

  /** A command with its arguments, as the fixed strings of `rewriteAppendOnlyFileRio` and bulk writes. */
  method WriteCommand(argv: Argv, dst: bytes) returns (out: bytes)
    ensures out == dst + PrintAll([argv])
  {
    PrintOne(argv);
    out := CatGenericCommand(dst, argv);
  }

  /** One key. */
  method RewriteEntry(e: Entry, dst: bytes) returns (out: bytes)
    requires Shaped(e.obj)
    ensures out == dst + PrintAll(EntryCommands(e))
  {
    hide Print, PrintAll, Chunks;
    PrintAllAppend(ObjectCommands(e.key, e.obj), ExpireCommands(e.key, e.expire));
    match e.obj {
      case Str(v) => out := WriteCommand([SET, e.key, v], dst);
      case Items(t, items) => out := RewriteItems(Adder(t), e.key, Width(t), items, dst);
    }
    if e.expire.Some? {
      out := WriteCommand([PEXPIREAT, e.key, Digits(e.expire.value)], out);
    } else {
      PrintNone();
    }
  }

  lemma NoDbCommands()
    ensures DbCommands([]) == []
  {
  }

  lemma PrintNone()
    ensures PrintAll([]) == []
  {
  }

  ghost predicate ShapedDb(db: Db) {
    forall i | 0 <= i < |db| :: Shaped(db[i].obj)
  }

  lemma {:induction false} DbCommandsAppend(a: Db, b: Db)
    ensures DbCommands(a + b) == DbCommands(a) + DbCommands(b)
  {
    hide EntryCommands;
    if a == [] {
      assert a + b == b;
    } else {
      DbCommandsAppend(a[1..], b);
      assert (a + b)[1..] == a[1..] + b;
    }
  }

  lemma DbCommandsStep(db: Db, i: nat)
    requires i < |db|
    ensures PrintAll(DbCommands(db[..i + 1])) == PrintAll(DbCommands(db[..i])) + PrintAll(EntryCommands(db[i]))
  {
    hide EntryCommands, PrintAll;
    assert db[..i + 1] == db[..i] + [db[i]];
    DbCommandsAppend(db[..i], [db[i]]);
    PrintAllAppend(DbCommands(db[..i]), EntryCommands(db[i]));
    assert [db[i]][1..] == [] && DbCommands([db[i]]) == EntryCommands(db[i]) + [];
    assert EntryCommands(db[i]) + [] == EntryCommands(db[i]);
  }

  /** The keys of one database. */
  method RewriteDb(db: Db, dst: bytes) returns (out: bytes)
    requires ShapedDb(db)
    ensures out == dst + PrintAll(DbCommands(db))
  {
    hide EntryCommands, Shaped, PrintAll, DbCommands;
    PrintNone();
    NoDbCommands();
    out := dst;
    assert db[..0] == [];
    for i := 0 to |db|
      invariant out == dst + PrintAll(DbCommands(db[..i]))
    {
      DbCommandsStep(db, i);
      out := RewriteEntry(db[i], out);
    }
    assert db[..|db|] == db;
  }

  lemma CommandsStep(dbs: seq<Db>, j: nat)
    requires j < |dbs|
    ensures PrintAll(Commands(dbs[j..], j))
        == PrintAll(SelectedCommands(dbs[j], j)) + PrintAll(Commands(dbs[j + 1..], j + 1))
  {
    hide SelectedCommands, PrintAll;
    assert dbs[j..][1..] == dbs[j + 1..];
    PrintAllAppend(SelectedCommands(dbs[j], j), Commands(dbs[j + 1..], j + 1));
  }

  method RewriteSelected(db: Db, j: nat, dst: bytes) returns (out: bytes)
    requires ShapedDb(db)
    ensures out == dst + PrintAll(SelectedCommands(db, j))
  {
    hide DbCommands, ShapedDb, PrintAll;
    if db == [] {
      PrintNone();
      return dst;
    }
    PrintAllAppend([[SELECT, Digits(j)]], DbCommands(db));
    out := WriteCommand([SELECT, Digits(j)], dst);
    out := RewriteDb(db, out);
  }

  /** `rewriteAppendOnlyFileRio`. */
  method RewriteAppendOnlyFile(dbs: seq<Db>) returns (out: bytes)
    requires forall i | 0 <= i < |dbs| :: ShapedDb(dbs[i])
    ensures out == PrintAll(Commands(dbs, 0))
  {
    hide SelectedCommands, ShapedDb, PrintAll, Commands;
    out := [];
    assert dbs[0..] == dbs;
    NoCommands(|dbs|);
    for j := 0 to |dbs|
      invariant PrintAll(Commands(dbs, 0)) == out + PrintAll(Commands(dbs[j..], j))
    {
      CommandsStep(dbs, j);
      out := RewriteSelected(dbs[j], j, out);
    }
    assert dbs[|dbs|..] == [];
  }

  lemma NoCommands(j: nat)
    ensures PrintAll(Commands([], j)) == []
  {
  }
}
