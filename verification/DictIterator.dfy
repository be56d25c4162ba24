/** The safe iterator of src/dict.c. While it is open the dictionary stops rehashing, so finds, adds (even
    one that starts a rehash) and deletes of the current entry may be interleaved with the iteration. */
module DictIterator {
  import opened Words
  import opened Options
  import opened DictTables
  import opened DictObject

  /** A `dictIterator`. Entries are named by their key, which is unique in the dictionary. */
  datatype Iter<K> = Iter(table: nat, index: int, entry: Option<K>, nextEntry: Option<K>)

  function Buckets<K, V>(d: State<K, V>, table: nat): seq<seq<Entry<K, V>>> {
    if table == 0 then d.ht0.buckets else d.ht1.buckets
  }

  /** The chain from the entry of k onwards. */
  function Suffix<K(==), V>(c: seq<Entry<K, V>>, k: K): (s: seq<Entry<K, V>>)
    ensures s == [] || s[0].key == k
  {
    if c == [] || c[0].key == k then c else Suffix(c[1..], k)
  }

  /** `entry->next` for the second entry of a chain suffix. */
  function Second<K, V>(s: seq<Entry<K, V>>): Option<K> {
    if |s| >= 2 then Some(s[1].key) else None
  }

  /** The first bucket at or after from that is not empty, or the table size. */
  function FirstFull<K, V>(bs: seq<seq<Entry<K, V>>>, from: nat): (b: nat)
    requires from <= |bs|
    ensures from <= b <= |bs| && (b < |bs| ==> bs[b] != [])
    ensures forall i | from <= i < b :: bs[i] == []
    decreases |bs| - from
  {
    if from == |bs| || bs[from] != [] then from else FirstFull(bs, from + 1)
  }

  ghost predicate Started<K>(it: Iter<K>) { !(it.table == 0 && it.index == -1) }

  /** An iterator that has not finished: either untouched, or standing on an entry. */
  ghost predicate IterOk<K(!new), V>(d: State<K, V>, it: Iter<K>) {
    if !Started(it) then it.entry == None && it.nextEntry == None
    else
      && d.iterators > 0
      && (it.table == 0 || (it.table == 1 && Rehashing(d)))
      && 0 <= it.index < |Buckets(d, it.table)|
      && it.entry.Some? && it.nextEntry != it.entry
      && (it.nextEntry.Some? ==> ChainFind(Buckets(d, it.table)[it.index], it.nextEntry.value).Some?)
  }

  /** Stand on the first entry of bucket b. */
  function Land<K, V>(table: nat, b: nat, c: seq<Entry<K, V>>): Iter<K>
    requires c != []
  {
    Iter(table, b, Some(c[0].key), Second(c))
  }

  /** `dictNext` of a safe iterator: the dictionary (its iterator count), the iterator and the key returned. */
  function Next<K(!new, ==), V>(d: State<K, V>, it: Iter<K>): (State<K, V>, Iter<K>, Option<K>)
    requires IterOk(d, it)
  {
    if it.nextEntry.Some? then
      var s := Suffix(Buckets(d, it.table)[it.index], it.nextEntry.value);
      (d, it.(entry := it.nextEntry, nextEntry := Second(s)), it.nextEntry)
    else
      var d1 := if it.table == 0 && it.index == -1 then d.(iterators := d.iterators + 1) else d;
      var bs := Buckets(d, it.table);
      var b := FirstFull(bs, it.index + 1);
      if b < |bs| then (d1, Land(it.table, b, bs[b]), Some(bs[b][0].key))
      else if Rehashing(d) && it.table == 0 then
        var b1 := FirstFull(d.ht1.buckets, 0);
        if b1 < |d.ht1.buckets| then (d1, Land(1, b1, d.ht1.buckets[b1]), Some(d.ht1.buckets[b1][0].key))
        else (d1, Iter(1, b1, None, None), None)
      else (d1, Iter(it.table, b, None, None), None)
  }

  // ---- which keys are still to come ----

  /** The table and the bucket that hold a bound key. */
  ghost function Home<K(!new), V>(d: State<K, V>, k: K): (nat, nat)
    requires Valid(d) && Lookup(d, k).Some?
  {
    if TableFind(d.ht0, d.hash, k).Some? then (0, Slot(d.hash(k), |d.ht0.buckets|))
    else (1, Slot(d.hash(k), |d.ht1.buckets|))
  }

  /** Walking order: bucket by bucket through ht[0], then through ht[1]. */
  ghost predicate Later(h: (nat, nat), table: nat, index: int) {
    h.0 > table || (h.0 == table && h.1 > index)
  }

  /** Key k is behind the saved next entry in the chain c. */
  ghost predicate InRest<K(!new), V>(c: seq<Entry<K, V>>, next: Option<K>, k: K) {
    next.Some? && ChainFind(Suffix(c, next.value), k).Some?
  }

  ghost predicate Pending<K(!new), V>(d: State<K, V>, it: Iter<K>, k: K)
    requires Valid(d) && Lookup(d, k).Some? && IterOk(d, it)
  {
    var h := Home(d, k);
    Later(h, it.table, it.index)
    || (h == (it.table, it.index) && InRest(Buckets(d, it.table)[it.index], it.nextEntry, k))
  }

  /** The home bucket of k holds k, and no other bucket does. */
  lemma HomeFacts<K(!new), V>(d: State<K, V>, k: K)
    requires Valid(d) && Lookup(d, k).Some?
    ensures var (t, b) := Home(d, k);
            && t <= 1 && (t == 1 ==> Rehashing(d)) && b < |Buckets(d, t)|
            && ChainFind(Buckets(d, t)[b], k).Some?
  {
  }

  lemma HomeUnique<K(!new), V>(d: State<K, V>, t: nat, b: nat, k: K)
    requires Valid(d) && t <= 1 && b < |Buckets(d, t)| && ChainFind(Buckets(d, t)[b], k).Some?
    ensures Lookup(d, k).Some? && Home(d, k) == (t, b) && Distinct(Buckets(d, t)[b])
  {
    var table := if t == 0 then d.ht0 else d.ht1;
    var c := table.buckets[b];
    assert BucketOk(c, b, |table.buckets|, d.hash);
    FindIndex(c, k);
    assert TableFind(table, d.hash, k).Some?;
  }

  lemma {:induction false} SuffixFind<K, V>(c: seq<Entry<K, V>>, r: K)
    ensures Suffix(c, r) != [] <==> ChainFind(c, r).Some?
  {
    if c != [] && c[0].key != r { SuffixFind(c[1..], r); }
  }

  /** Past the entry of r come exactly the other entries of the suffix that starts at r. */
  lemma {:induction false} SuffixStep<K, V>(c: seq<Entry<K, V>>, r: K)
    requires Distinct(c) && ChainFind(c, r).Some?
    ensures var s := Suffix(c, r);
            && s != [] && Distinct(s)
            && (Second(s).Some? ==> Suffix(c, Second(s).value) == s[1..])
  {
    if c[0].key == r {
      if |c| >= 2 { assert Suffix(c, c[1].key) == Suffix(c[1..], c[1].key) == c[1..]; }
    } else {
      var t := c[1..];
      SuffixStep(t, r);
      var s := Suffix(t, r);
      if Second(s).Some? {
        SuffixIn(t, r);
        assert s[1] in s;
        var j :| 0 <= j < |t| && t[j] == s[1];
        assert c[j + 1].key != c[0].key;
      }
    }
  }

  lemma {:induction false} SuffixIn<K, V>(c: seq<Entry<K, V>>, r: K)
    ensures forall e | e in Suffix(c, r) :: e in c
  {
    if c != [] && c[0].key != r { SuffixIn(c[1..], r); }
  }

  /** After returning r, the keys ahead in the chain are those that were, without r. */
  lemma ChainAdvance<K, V>(c: seq<Entry<K, V>>, r: K, k: K)
    requires Distinct(c) && ChainFind(c, r).Some?
    ensures var next := Second(Suffix(c, r));
            && (next.Some? ==> next.value != r && ChainFind(c, next.value).Some?)
            && ((next.Some? && ChainFind(Suffix(c, next.value), k).Some?) <==>
                (k != r && ChainFind(Suffix(c, r), k).Some?))
  {
    SuffixStep(c, r);
    var s := Suffix(c, r);
    FindIndex(s[1..], r);
    FindIndex(s, k);
    if |s| >= 2 { SuffixFind(c, s[1].key); } else { assert s[1..] == []; }
  }

  /** Entering a chain at its head, all but the head are ahead. */
  lemma ChainEnter<K, V>(c: seq<Entry<K, V>>, k: K)
    requires Distinct(c) && c != []
    ensures var next := Second(c);
            && (next.Some? ==> next.value != c[0].key && ChainFind(c, next.value).Some?)
            && ((next.Some? && ChainFind(Suffix(c, next.value), k).Some?) <==>
                (k != c[0].key && ChainFind(c, k).Some?))
  {
    assert Suffix(c, c[0].key) == c;
    ChainAdvance(c, c[0].key, k);
  }

  lemma {:induction false} SuffixRemove<K, V>(c: seq<Entry<K, V>>, gone: K, r: K)
    requires Distinct(c) && gone != r
    ensures Suffix(ChainRemove(c, gone), r) == ChainRemove(Suffix(c, r), gone)
  {
    if c != [] {
      var t := c[1..];
      if c[0].key == r {
        assert ChainRemove(c, gone)[0] == c[0];
      } else if c[0].key == gone {
        SuffixIn(t, r);
        var s := Suffix(t, r);
        forall i | 0 <= i < |s| ensures s[i].key != gone {
          assert s[i] in s;
          var j :| 0 <= j < |t| && t[j] == s[i];
          assert c[j + 1].key != c[0].key;
        }
        RemoveAbsent(s, gone);
      } else {
        SuffixRemove(t, gone, r);
        assert ChainRemove(c, gone)[1..] == ChainRemove(t, gone);
      }
    }
  }

  lemma {:induction false} RemoveAbsent<K, V>(c: seq<Entry<K, V>>, gone: K)
    requires forall i | 0 <= i < |c| :: c[i].key != gone
    ensures ChainRemove(c, gone) == c
  {
    if c != [] {
      RemoveAbsent(c[1..], gone);
      assert c == [c[0]] + c[1..];
    }
  }

  // ---- the interleavings ----

  datatype Action<K, V> =
    | DoNext
    | DoFind(key: K)
    | DoAdd(key: K, val: V, canResize: bool)
    | DoDeleteCurrent

  /** The dictionary, the iterator, the keys returned so far, and whether dictNext has returned NULL. */
  datatype Walk<!K, V> = Walk(d: State<K, V>, it: Iter<K>, returned: seq<K>, done: bool)

  ghost predicate WalkOk<K(!new), V>(w: Walk<K, V>) {
    Valid(w.d) && (!w.done ==> IterOk(w.d, w.it))
  }

  /** One action. A finished walk stays as it is. */
  ghost function Act<K(!new), V>(w: Walk<K, V>, a: Action<K, V>): Walk<K, V>
    requires WalkOk(w)
  {
    if w.done then w
    else match a
      case DoNext =>
        var (d, it, r) := Next(w.d, w.it);
        if r.Some? then Walk(d, it, w.returned + [r.value], false) else Walk(d, it, w.returned, true)
      case DoFind(k) => w.(d := Find(w.d, k).0)
      case DoAdd(k, v, canResize) => w.(d := Add(w.d, k, v, canResize).0)
      case DoDeleteCurrent => if w.it.entry.None? then w else w.(d := Delete(w.d, w.it.entry.value).0)
  }

  function Times<K(==)>(s: seq<K>, k: K): nat {
    if s == [] then 0 else Times(s[..|s| - 1], k) + (if s[|s| - 1] == k then 1 else 0)
  }

  /** The bookkeeping for a key that is in the dictionary: returned once, or never and still to come. */
  ghost predicate Tracked<K(!new), V>(w: Walk<K, V>, k: K)
    requires WalkOk(w) && Lookup(w.d, k).Some?
  {
    Times(w.returned, k) == if w.done || !Pending(w.d, w.it, k) then 1 else 0
  }

  // ---- dictNext ----

  /** Returning r from state (d, it) to (d', it') is right for k: it was pending exactly if it is r or still pending. */
  ghost predicate Returns<K(!new), V>(d: State<K, V>, it: Iter<K>, d': State<K, V>, it': Iter<K>, r: K, k: K)
    requires Valid(d) && IterOk(d, it) && Lookup(d, k).Some?
  {
    && Valid(d') && IterOk(d', it') && Lookup(d', k).Some?
    && (Pending(d, it, k) <==> (k == r || Pending(d', it', k)))
    && !(k == r && Pending(d', it', k))
  }

  lemma NextInChain<K(!new), V>(d: State<K, V>, it: Iter<K>, k: K)
    requires Valid(d) && IterOk(d, it) && it.nextEntry.Some? && Lookup(d, k).Some?
    ensures var (d', it', r) := Next(d, it);
            r.Some? && Returns(d, it, d', it', r.value, k)
  {
    var r := it.nextEntry.value;
    var c := Buckets(d, it.table)[it.index];
    HomeUnique(d, it.table, it.index, r);
    HomeFacts(d, k);
    SuffixFind(c, r);
    ChainAdvance(c, r, k);
    HeadFound(Suffix(c, r));
    hide Valid, Home, Suffix, ChainFind, Distinct, Lookup, Core;
    var it' := it.(entry := it.nextEntry, nextEntry := Second(Suffix(c, r)));
    assert Next(d, it) == (d, it', it.nextEntry);
    assert IterOk(d, it');
    assert InRest(c, it'.nextEntry, k) <==> k != r && InRest(c, it.nextEntry, k);
  }

  lemma HeadFound<K, V>(s: seq<Entry<K, V>>)
    requires s != []
    ensures ChainFind(s, s[0].key).Some?
  {
  }

  /** No full bucket lies strictly between the iterator and (t, b). */
  ghost predicate Gap<K(!new), V>(d: State<K, V>, it: Iter<K>, t: nat, b: nat) {
    forall t': nat, b': nat | t' <= 1 && b' < |Buckets(d, t')| ::
      Later((t', b'), it.table, it.index) && Later((t, b), t', b') ==> Buckets(d, t')[b'] == []
  }

  /** Counting the iterator in changes nothing else. */
  ghost function Counted<K(!new), V>(d: State<K, V>, it: Iter<K>): State<K, V> {
    if Started(it) then d else d.(iterators := d.iterators + 1)
  }

  lemma CountedSame<K(!new), V>(d: State<K, V>, it: Iter<K>, k: K)
    requires Valid(d) && IterOk(d, it) && Lookup(d, k).Some?
    ensures var d' := Counted(d, it);
            && Valid(d') && d'.iterators > 0 && Lookup(d', k) == Lookup(d, k) && Home(d', k) == Home(d, k)
            && forall t: nat :: Buckets(d', t) == Buckets(d, t)
  {
  }

  /** Landing on the next full bucket: the keys that were ahead are those of this bucket and those after it. */
  lemma LandHome<K(!new), V>(d: State<K, V>, it: Iter<K>, t: nat, b: nat, k: K)
    requires Valid(d) && IterOk(d, it) && it.nextEntry.None? && Lookup(d, k).Some?
    requires t <= 1 && b < |Buckets(d, t)| && Later((t, b), it.table, it.index) && Gap(d, it, t, b)
    ensures Pending(d, it, k) <==> Home(d, k) == (t, b) || Later(Home(d, k), t, b)
  {
    HomeFacts(d, k);
    hide Valid, Home, Lookup;
    var h := Home(d, k);
    assert Buckets(d, h.0)[h.1] != [];
  }

  lemma LandReturns<K(!new), V>(d: State<K, V>, it: Iter<K>, t: nat, b: nat, k: K)
    requires Valid(d) && IterOk(d, it) && it.nextEntry.None? && Lookup(d, k).Some?
    requires t <= 1 && (t == 1 ==> Rehashing(d)) && b < |Buckets(d, t)| && Buckets(d, t)[b] != []
    requires Later((t, b), it.table, it.index) && Gap(d, it, t, b)
    ensures Returns(d, it, Counted(d, it), Land(t, b, Buckets(d, t)[b]), Buckets(d, t)[b][0].key, k)
  {
    hide Valid, Home, Suffix, ChainFind, Distinct, Lookup, Gap, IterOk;
    var c := Buckets(d, t)[b];
    HeadFound(c);
    HomeUnique(d, t, b, c[0].key);
    ChainEnter(c, k);
    CountedSame(d, it, k);
    LandHome(d, it, t, b, k);
    LandIterOk(d, it, t, b);
    LandPending(d, it, t, b, k);
  }

  lemma LandIterOk<K(!new), V>(d: State<K, V>, it: Iter<K>, t: nat, b: nat)
    requires Valid(d) && IterOk(d, it)
    requires t <= 1 && (t == 1 ==> Rehashing(d)) && b < |Buckets(d, t)| && Buckets(d, t)[b] != []
    ensures Valid(Counted(d, it)) && IterOk(Counted(d, it), Land(t, b, Buckets(d, t)[b]))
  {
    var c := Buckets(d, t)[b];
    HeadFound(c);
    HomeUnique(d, t, b, c[0].key);
    ChainEnter(c, c[0].key);
    CountedSame(d, it, c[0].key);
    hide Valid, ChainFind, Distinct;
  }

  lemma LandPending<K(!new), V>(d: State<K, V>, it: Iter<K>, t: nat, b: nat, k: K)
    requires Valid(d) && IterOk(d, it) && Lookup(d, k).Some?
    requires t <= 1 && (t == 1 ==> Rehashing(d)) && b < |Buckets(d, t)| && Buckets(d, t)[b] != []
    requires var d' := Counted(d, it); Valid(d') && Lookup(d', k).Some? && IterOk(d', Land(t, b, Buckets(d, t)[b]))
    ensures var c := Buckets(d, t)[b];
            Pending(Counted(d, it), Land(t, b, c), k) <==>
            Later(Home(d, k), t, b) || (Home(d, k) == (t, b) && k != c[0].key)
  {
    var c := Buckets(d, t)[b];
    HeadFound(c);
    HomeUnique(d, t, b, c[0].key);
    HomeFacts(d, k);
    ChainEnter(c, k);
    CountedSame(d, it, k);
    hide Valid, Home, Suffix, ChainFind, Distinct, Lookup, IterOk;
  }

  /** dictNext returns a pending key and leaves the others pending, or returns NULL with nothing pending. */
  lemma NextFacts<K(!new), V>(d: State<K, V>, it: Iter<K>, k: K)
    requires Valid(d) && IterOk(d, it) && Lookup(d, k).Some?
    ensures var (d', it', r) := Next(d, it);
            if r.Some? then Returns(d, it, d', it', r.value, k)
            else Valid(d') && Lookup(d', k) == Lookup(d, k) && !Pending(d, it, k)
  {
    hide Valid, Returns, Lookup, ChainFind, Pending, Suffix, Gap, Land;
    if it.nextEntry.Some? {
      NextInChain(d, it, k);
    } else {
      CountedSame(d, it, k);
      var bs := Buckets(d, it.table);
      var b := FirstFull(bs, it.index + 1);
      if b < |bs| {
        GapSame(d, it, b);
        LandReturns(d, it, it.table, b, k);
      } else if Rehashing(d) && it.table == 0 && FirstFull(d.ht1.buckets, 0) < |d.ht1.buckets| {
        GapNext(d, it, FirstFull(d.ht1.buckets, 0));
        LandReturns(d, it, 1, FirstFull(d.ht1.buckets, 0), k);
      } else {
        NothingLeft(d, it, k);
      }
    }
  }

  lemma GapSame<K(!new), V>(d: State<K, V>, it: Iter<K>, b: nat)
    requires forall i | it.index < i < b && 0 <= i < |Buckets(d, it.table)| :: Buckets(d, it.table)[i] == []
    ensures Gap(d, it, it.table, b)
  {
  }

  lemma GapNext<K(!new), V>(d: State<K, V>, it: Iter<K>, b: nat)
    requires it.table == 0
    requires forall i | it.index < i < |d.ht0.buckets| && 0 <= i :: d.ht0.buckets[i] == []
    requires forall i | 0 <= i < b && i < |d.ht1.buckets| :: d.ht1.buckets[i] == []
    ensures Gap(d, it, 1, b)
  {
  }

  lemma NothingLeft<K(!new), V>(d: State<K, V>, it: Iter<K>, k: K)
    requires Valid(d) && IterOk(d, it) && it.nextEntry.None? && Lookup(d, k).Some?
    requires FirstFull(Buckets(d, it.table), it.index + 1) == |Buckets(d, it.table)|
    requires Rehashing(d) && it.table == 0 ==> FirstFull(d.ht1.buckets, 0) == |d.ht1.buckets|
    ensures !Pending(d, it, k)
  {
    HomeFacts(d, k);
  }

  // ---- the other actions ----

  lemma NotStarted<K(!new), V>(d: State<K, V>, it: Iter<K>, k: K)
    requires Valid(d) && IterOk(d, it) && Lookup(d, k).Some? && !Started(it)
    ensures Pending(d, it, k)
  {
  }

  /** An open iterator suspends rehashing. */
  lemma StepSuspended<K(!new), V>(d: State<K, V>, it: Iter<K>)
    requires Valid(d) && IterOk(d, it) && Started(it)
    ensures RehashStep(d) == d && d.ht0.buckets != []
  {
  }

  /** A change that keeps the home of k and what follows the saved next entry keeps k's status. */
  lemma StatusKept<K(!new), V>(d: State<K, V>, d': State<K, V>, it: Iter<K>, k: K)
    requires Valid(d) && IterOk(d, it) && Lookup(d, k).Some? && Started(it)
    requires Valid(d') && IterOk(d', it) && Lookup(d', k).Some?
    requires Home(d', k) == Home(d, k)
    requires InRest(Buckets(d', it.table)[it.index], it.nextEntry, k)
             <==> InRest(Buckets(d, it.table)[it.index], it.nextEntry, k)
    ensures Pending(d', it, k) <==> Pending(d, it, k)
  {
  }

  lemma GrowIterOk<K(!new), V>(d: State<K, V>, it: Iter<K>, canResize: bool)
    requires Valid(d) && IterOk(d, it) && Started(it)
    ensures var d' := ExpandIfNeeded(d, canResize).0;
            Valid(d') && IterOk(d', it) && d'.ht0 == d.ht0
  {
    ExpandIfNeededKeeps(d, canResize);
    StepSuspended(d, it);
  }

  /** Growing, even when it starts a rehash, moves nothing. */
  lemma GrowKept<K(!new), V>(d: State<K, V>, it: Iter<K>, k: K, canResize: bool)
    requires Valid(d) && IterOk(d, it) && Lookup(d, k).Some? && Started(it)
    ensures var d' := ExpandIfNeeded(d, canResize).0;
            && Valid(d') && IterOk(d', it) && Lookup(d', k) == Lookup(d, k)
            && (Pending(d', it, k) <==> Pending(d, it, k))
  {
    ExpandIfNeededKeeps(d, canResize);
    GrowIterOk(d, it, canResize);
    var d' := ExpandIfNeeded(d, canResize).0;
    assert d'.ht0 == d.ht0 && d'.iterators == d.iterators;
    if Rehashing(d) {
      assert d' == d;
    } else {
      hide ExpandIfNeeded;
      StatusKept(d, d', it, k);
    }
  }

  lemma InsertIterOk<K(!new), V>(d: State<K, V>, it: Iter<K>, q: K, v: V)
    requires Valid(d) && IterOk(d, it) && Started(it) && d.ht0.buckets != [] && Lookup(d, q).None?
    ensures var d' := Insert(d, q, v);
            && Valid(d') && IterOk(d', it)
            && var c, c' := Buckets(d, it.table)[it.index], Buckets(d', it.table)[it.index];
            && (c' == c || c' == [Entry(q, v)] + c)
            && (it.nextEntry.Some? ==> it.nextEntry.value != q)
  {
    InsertKeeps(d, q, v);
    var d' := Insert(d, q, v);
    var c, c' := Buckets(d, it.table)[it.index], Buckets(d', it.table)[it.index];
    assert c' == c || c' == [Entry(q, v)] + c;
    if it.nextEntry.Some? {
      HomeUnique(d, it.table, it.index, it.nextEntry.value);
      assert c' != c ==> c'[1..] == c;
    }
  }

  /** A new entry goes to the head of a chain, in front of the saved next entry. */
  lemma InsertKept<K(!new), V>(d: State<K, V>, it: Iter<K>, k: K, q: K, v: V)
    requires Valid(d) && IterOk(d, it) && Lookup(d, k).Some? && Started(it)
    requires d.ht0.buckets != [] && Lookup(d, q).None?
    ensures var d' := Insert(d, q, v);
            && Valid(d') && IterOk(d', it) && Lookup(d', k) == Lookup(d, k)
            && (Pending(d', it, k) <==> Pending(d, it, k))
  {
    InsertKeeps(d, q, v);
    InsertIterOk(d, it, q, v);
    var d' := Insert(d, q, v);
    var c, c' := Buckets(d, it.table)[it.index], Buckets(d', it.table)[it.index];
    assert c' != c ==> c'[1..] == c;
    InsertHome(d, k, q, v);
    hide Insert, Valid, Lookup;
    StatusKept(d, d', it, k);
  }

  lemma InsertHome<K(!new), V>(d: State<K, V>, k: K, q: K, v: V)
    requires Valid(d) && Lookup(d, k).Some? && d.ht0.buckets != [] && Lookup(d, q).None?
    ensures Valid(Insert(d, q, v)) && Lookup(Insert(d, q, v), k).Some? && Home(Insert(d, q, v), k) == Home(d, k)
  {
    InsertKeeps(d, q, v);
    PushFacts(d.hash, if Rehashing(d) then d.ht1 else d.ht0, Entry(q, v));
  }

  lemma UnlinkIterOk<K(!new), V>(d: State<K, V>, it: Iter<K>)
    requires Valid(d) && IterOk(d, it) && Started(it) && d.ht0.buckets != []
    ensures var d' := Unlink(d, it.entry.value);
            Valid(d') && IterOk(d', it)
  {
    var gone := it.entry.value;
    UnlinkKeeps(d, gone);
    UnlinkChains(d, gone, it.table, it.index);
    if it.nextEntry.Some? {
      var c := Buckets(d, it.table)[it.index];
      HomeUnique(d, it.table, it.index, it.nextEntry.value);
      RemoveFacts(c, gone);
    }
    hide Unlink, Valid, ChainRemove, ChainFind;
  }

  /** Unlinking the current entry leaves the saved next entry and all that follows it. */
  lemma UnlinkKept<K(!new), V>(d: State<K, V>, it: Iter<K>, k: K)
    requires Valid(d) && IterOk(d, it) && Lookup(d, k).Some? && Started(it)
    requires d.ht0.buckets != [] && k != it.entry.value
    ensures var d' := Unlink(d, it.entry.value);
            && Valid(d') && IterOk(d', it) && Lookup(d', k) == Lookup(d, k)
            && (Pending(d', it, k) <==> Pending(d, it, k))
  {
    var gone := it.entry.value;
    UnlinkKeeps(d, gone);
    UnlinkIterOk(d, it);
    var d' := Unlink(d, gone);
    var c := Buckets(d, it.table)[it.index];
    UnlinkChains(d, gone, it.table, it.index);
    if it.nextEntry.Some? {
      var r := it.nextEntry.value;
      HomeUnique(d, it.table, it.index, r);
      SuffixRemove(c, gone, r);
      SuffixStep(c, r);
      RemoveFacts(Suffix(c, r), gone);
    }
    UnlinkHome(d, k, gone);
    hide Unlink, Valid, Lookup, Suffix, ChainRemove;
    StatusKept(d, d', it, k);
  }

  lemma UnlinkChains<K(!new), V>(d: State<K, V>, gone: K, t: nat, b: int)
    requires Valid(d) && d.ht0.buckets != [] && t <= 1 && 0 <= b < |Buckets(d, t)|
    ensures |Buckets(Unlink(d, gone), t)| == |Buckets(d, t)|
    ensures var c' := Buckets(Unlink(d, gone), t)[b];
            c' == Buckets(d, t)[b] || c' == ChainRemove(Buckets(d, t)[b], gone)
    ensures Unlink(d, gone).iterators == d.iterators && Unlink(d, gone).rehashidx == d.rehashidx
  {
  }

  lemma UnlinkHome<K(!new), V>(d: State<K, V>, k: K, gone: K)
    requires Valid(d) && Lookup(d, k).Some? && d.ht0.buckets != [] && k != gone
    ensures Valid(Unlink(d, gone)) && Lookup(Unlink(d, gone), k).Some? && Home(Unlink(d, gone), k) == Home(d, k)
  {
    UnlinkKeeps(d, gone);
    if TableFind(d.ht0, d.hash, gone).Some? {
      RemoveFromTable(d.ht0, d.hash, gone);
    } else if Rehashing(d) {
      RemoveFromTable(d.ht1, d.hash, gone);
    }
  }

  // ---- whole walks ----

  lemma AddIterOk<K(!new), V>(d: State<K, V>, it: Iter<K>, q: K, v: V, canResize: bool)
    requires Valid(d) && IterOk(d, it)
    ensures Valid(Add(d, q, v, canResize).0) && IterOk(Add(d, q, v, canResize).0, it)
  {
    AddRefines(d, q, v, canResize);
    if Started(it) {
      StepSuspended(d, it);
      GrowIterOk(d, it, canResize);
      ExpandIfNeededKeeps(d, canResize);
      hide ExpandIfNeeded, Insert, Lookup, RehashStep, Valid, IterOk;
      if Add(d, q, v, canResize).1 { InsertIterOk(ExpandIfNeeded(d, canResize).0, it, q, v); }
    }
  }

  lemma NextIterOk<K(!new), V>(d: State<K, V>, it: Iter<K>)
    requires Valid(d) && IterOk(d, it)
    ensures var (d', it', r) := Next(d, it);
            Valid(d') && (r.Some? ==> IterOk(d', it'))
  {
    if it.nextEntry.Some? {
      HomeUnique(d, it.table, it.index, it.nextEntry.value);
      NextInChain(d, it, it.nextEntry.value);
    } else {
      var (d', it', r) := Next(d, it);
      if r.Some? {
        HeadFound(Buckets(d, it'.table)[it'.index]);
        HomeUnique(d, it'.table, it'.index, r.value);
        NextFacts(d, it, r.value);
      }
    }
  }

  /** Every action keeps the dictionary valid and the iterator in order. */
  lemma ActOk<K(!new), V>(w: Walk<K, V>, a: Action<K, V>)
    requires WalkOk(w)
    ensures WalkOk(Act(w, a))
  {
    hide Valid, IterOk, Add, Find, Delete, Next;
    if !w.done {
      match a
      case DoNext => NextIterOk(w.d, w.it);
      case DoFind(k) => FindIterOk(w.d, w.it, k);
      case DoAdd(k, v, canResize) => AddIterOk(w.d, w.it, k, v, canResize);
      case DoDeleteCurrent => if w.it.entry.Some? { DeleteIterOk(w.d, w.it); }
    }
  }

  lemma FindIterOk<K(!new), V>(d: State<K, V>, it: Iter<K>, q: K)
    requires Valid(d) && IterOk(d, it)
    ensures Valid(Find(d, q).0) && IterOk(Find(d, q).0, it)
  {
    FindRefines(d, q);
    if Started(it) { StepSuspended(d, it); }
  }

  lemma DeleteIterOk<K(!new), V>(d: State<K, V>, it: Iter<K>)
    requires Valid(d) && IterOk(d, it) && it.entry.Some?
    ensures Valid(Delete(d, it.entry.value).0) && IterOk(Delete(d, it.entry.value).0, it)
  {
    StepSuspended(d, it);
    SizeZero(d);
    UnlinkIterOk(d, it);
  }

  lemma AddKept<K(!new), V>(d: State<K, V>, it: Iter<K>, k: K, q: K, v: V, canResize: bool)
    requires Valid(d) && IterOk(d, it) && Lookup(d, k).Some?
    ensures var d' := Add(d, q, v, canResize).0;
            && Valid(d') && IterOk(d', it) && Lookup(d', k).Some?
            && (Pending(d', it, k) <==> Pending(d, it, k))
  {
    AddRefines(d, q, v, canResize);
    var d' := Add(d, q, v, canResize).0;
    if !Started(it) {
      NotStarted(d, it, k);
      NotStarted(d', it, k);
    } else {
      StepSuspended(d, it);
      GrowKept(d, it, k, canResize);
      ExpandIfNeededKeeps(d, canResize);
      var d2 := ExpandIfNeeded(d, canResize).0;
      hide ExpandIfNeeded, Insert, Lookup, RehashStep, Valid, IterOk;
      if Add(d, q, v, canResize).1 { InsertKept(d2, it, k, q, v); }
    }
  }

  lemma DeleteKept<K(!new), V>(d: State<K, V>, it: Iter<K>, k: K)
    requires Valid(d) && IterOk(d, it) && Lookup(d, k).Some? && it.entry.Some? && k != it.entry.value
    ensures var d' := Delete(d, it.entry.value).0;
            && Valid(d') && IterOk(d', it) && Lookup(d', k).Some?
            && (Pending(d', it, k) <==> Pending(d, it, k))
  {
    StepSuspended(d, it);
    SizeZero(d);
    UnlinkKept(d, it, k);
  }

  lemma FindKept<K(!new), V>(d: State<K, V>, it: Iter<K>, k: K, q: K)
    requires Valid(d) && IterOk(d, it) && Lookup(d, k).Some?
    ensures var d' := Find(d, q).0;
            && Valid(d') && IterOk(d', it) && Lookup(d', k).Some?
            && (Pending(d', it, k) <==> Pending(d, it, k))
  {
    FindRefines(d, q);
    if !Started(it) {
      NotStarted(d, it, k);
      NotStarted(Find(d, q).0, it, k);
    } else {
      StepSuspended(d, it);
    }
  }

  /** Every action keeps the bookkeeping of a key that is present before and after it. */
  lemma NextTracked<K(!new), V>(w: Walk<K, V>, k: K)
    requires WalkOk(w) && Lookup(w.d, k).Some? && Tracked(w, k) && !w.done
    requires WalkOk(Act(w, DoNext)) && Lookup(Act(w, DoNext).d, k).Some?
    ensures Tracked(Act(w, DoNext), k)
  {
    NextFacts(w.d, w.it, k);
    hide Valid, IterOk, Next, Pending, Lookup;
    var (d, it, r) := Next(w.d, w.it);
    if r.Some? { assert (w.returned + [r.value])[..|w.returned|] == w.returned; }
  }

  lemma ActTracked<K(!new), V>(w: Walk<K, V>, a: Action<K, V>, k: K)
    requires WalkOk(w) && Lookup(w.d, k).Some? && Tracked(w, k)
    requires WalkOk(Act(w, a)) && Lookup(Act(w, a).d, k).Some?
    ensures Tracked(Act(w, a), k)
  {
    if !w.done {
      hide Valid, IterOk, Next, Pending, Lookup, Find, Add, Delete;
      match a
      case DoNext => NextTracked(w, k);
      case DoFind(q) => FindKept(w.d, w.it, k, q);
      case DoAdd(q, v, canResize) => AddKept(w.d, w.it, k, q, v, canResize);
      case DoDeleteCurrent =>
        if w.it.entry.Some? {
          DeleteRefines(w.d, w.it.entry.value);
          DeleteKept(w.d, w.it, k);
        }
    }
  }

  /** The walk after the first n actions. */
  ghost function After<K(!new), V>(w: Walk<K, V>, acts: seq<Action<K, V>>, n: nat): (r: Walk<K, V>)
    requires WalkOk(w) && n <= |acts|
    ensures WalkOk(r)
  {
    if n == 0 then w
    else
      ActOk(After(w, acts, n - 1), acts[n - 1]);
      Act(After(w, acts, n - 1), acts[n - 1])
  }

  /** A new safe iterator on d. */
  ghost function NewWalk<K(!new), V>(d: State<K, V>): (w: Walk<K, V>)
    requires Valid(d)
    ensures WalkOk(w)
  {
    Walk(d, Iter(0, -1, None, None), [], false)
  }

  lemma {:induction false} TrackedAfter<K(!new), V>(w: Walk<K, V>, acts: seq<Action<K, V>>, n: nat, k: K)
    requires WalkOk(w) && n <= |acts|
    requires forall i: nat | i <= n :: Lookup(After(w, acts, i).d, k).Some?
    requires Lookup(w.d, k).Some? && Tracked(w, k)
    ensures Lookup(After(w, acts, n).d, k).Some? && Tracked(After(w, acts, n), k)
  {
    hide Lookup, Core, Tracked, Act, IterOk;
    if n > 0 {
      TrackedAfter(w, acts, n - 1, k);
      assert Lookup(After(w, acts, n).d, k).Some?;
      ActTracked(After(w, acts, n - 1), acts[n - 1], k);
    }
  }

  /** Safe iteration: whatever finds, adds and deletes of the current entry are interleaved, a walk that
      runs from a new iterator until dictNext returns NULL returns every key that is present from start to
      end exactly once. */
  lemma SafeIteration<K(!new), V>(d: State<K, V>, acts: seq<Action<K, V>>, k: K)
    requires Valid(d)
    requires After(NewWalk(d), acts, |acts|).done
    requires forall i: nat | i <= |acts| :: Lookup(After(NewWalk(d), acts, i).d, k).Some?
    ensures Times(After(NewWalk(d), acts, |acts|).returned, k) == 1
  {
    hide Lookup, Valid, Pending, IterOk, After, NewWalk;
    AfterNone(NewWalk(d), acts);
    StartTracked(d, k);
    TrackedAfter(NewWalk(d), acts, |acts|, k);
  }

  lemma AfterNone<K(!new), V>(w: Walk<K, V>, acts: seq<Action<K, V>>)
    requires WalkOk(w)
    ensures After(w, acts, 0) == w
  {
  }

  lemma StartTracked<K(!new), V>(d: State<K, V>, k: K)
    requires Valid(d) && Lookup(NewWalk(d).d, k).Some?
    ensures Tracked(NewWalk(d), k)
  {
    NotStarted(d, NewWalk(d).it, k);
  }

  // ---- the iterator object ----

  class SafeIterator<K(!new, ==), V> {
    const d: Dict<K, V>
    var table: nat
    var index: int
    var entry: Option<K>
    var nextEntry: Option<K>

    ghost function View(): Iter<K>
      reads this
    {
      Iter(table, index, entry, nextEntry)
    }

    /** `dictGetSafeIterator`. */
    constructor (d: Dict<K, V>)
      ensures this.d == d && View() == Iter(0, -1, None, None)
    {
      this.d := d;
      table, index, entry, nextEntry := 0, -1, None, None;
    }

    /** The loop of `dictNext` when no entry of the current chain is left. */
    method SeekBucket() returns (r: Option<K>)
      requires table <= 1 && (table == 1 ==> d.rehashidx != -1)
      requires -1 <= index < |Buckets(d.View(), table)| || (index == -1 && table == 0)
      modifies this
      ensures (View(), r) == Scanned(d.View(), old(table), old(index) + 1)
    {
      hide Scanned;
      ghost var dict := d.View();
      ghost var goal := Scanned(dict, table, index + 1);
      while true
        invariant d.View() == dict && table <= 1 && (table == 1 ==> d.rehashidx != -1)
        invariant -1 <= index < |Buckets(dict, table)| || (index == -1 && table == 0)
        invariant Scanned(dict, table, index + 1) == goal
        decreases 1 - table, |Buckets(dict, table)| - index
      {
        var more := NextBucket();
        if !more { return None; }
        ScannedStep(dict, table, index);
        var c := if table == 0 then d.ht0.buckets[index] else d.ht1.buckets[index];
        if c != [] {
          entry, nextEntry := Some(c[0].key), if |c| >= 2 then Some(c[1].key) else None;
          return entry;
        }
      }
    }

    /** The step to the saved next entry: `entry = nextEntry; nextEntry = entry->next`. */
    method FollowNext()
      requires d.Ok() && IterOk(d.View(), View()) && nextEntry.Some?
      modifies this
      ensures View() == Next(d.View(), old(View())).1
    {
      var c := (if table == 0 then d.ht0.buckets else d.ht1.buckets)[index];
      HomeUnique(d.View(), table, index, nextEntry.value);
      hide Valid, ChainFind;
      var i := WalkChain(c, nextEntry.value);
      SuffixAt(c, nextEntry.value, i);
      entry, nextEntry := nextEntry, if i + 1 < |c| then Some(c[i + 1].key) else None;
    }

    /** Move on to the next bucket, at the end of the first table to the second while rehashing. */
    method NextBucket() returns (more: bool)
      requires table <= 1 && (table == 1 ==> d.rehashidx != -1)
      requires -1 <= index < |Buckets(d.View(), table)| || (index == -1 && table == 0)
      modifies this
      ensures !more ==> (View(), None) == Scanned(d.View(), old(table), old(index) + 1)
      ensures more ==>
        && old(table) <= table <= 1 && (table == 1 ==> d.rehashidx != -1)
        && 0 <= index < |Buckets(d.View(), table)| && (table == old(table) ==> index == old(index) + 1)
        && Scanned(d.View(), table, index) == Scanned(d.View(), old(table), old(index) + 1)
    {
      hide Scanned;
      ScannedStep(d.View(), table, index + 1);
      index := index + 1;
      var size := if table == 0 then |d.ht0.buckets| else |d.ht1.buckets|;
      if index < size { return true; }
      if d.rehashidx != -1 && table == 0 {
        table, index := 1, 0;
        if |d.ht1.buckets| > 0 { return true; }
        ScannedStep(d.View(), 1, 0);
      }
      entry, nextEntry := None, None;
      return false;
    }

    /** `dictNext`. */
    method NextKey() returns (r: Option<K>)
      requires d.Ok() && IterOk(d.View(), View())
      modifies this, d`iterators
      ensures (d.View(), View(), r) == Next(old(d.View()), old(View()))
      ensures d.Ok() && (r.Some? ==> IterOk(d.View(), View()))
    {
      NextIterOk(d.View(), View());
      hide Valid, Suffix, ChainFind;
      if nextEntry.Some? {
        FollowNext();
        return entry;
      }
      if index == -1 && table == 0 { d.iterators := d.iterators + 1; }
      r := SeekBucket();
    }
  }

  /** Where the bucket search of dictNext, standing before bucket `from`, will end. */
  ghost function Scanned<K(!new), V>(d: State<K, V>, table: nat, from: int): (Iter<K>, Option<K>)
    requires table <= 1 && 0 <= from <= |Buckets(d, table)|
  {
    var bs := Buckets(d, table);
    var b := FirstFull(bs, from);
    if b < |bs| then (Land(table, b, bs[b]), Some(bs[b][0].key))
    else if Rehashing(d) && table == 0 then
      var b1 := FirstFull(d.ht1.buckets, 0);
      if b1 < |d.ht1.buckets| then (Land(1, b1, d.ht1.buckets[b1]), Some(d.ht1.buckets[b1][0].key))
      else (Iter(1, b1, None, None), None)
    else (Iter(table, b, None, None), None)
  }

  /** One round of that search. */
  lemma ScannedStep<K(!new), V>(d: State<K, V>, table: nat, from: int)
    requires table <= 1 && 0 <= from <= |Buckets(d, table)|
    ensures var bs := Buckets(d, table);
            Scanned(d, table, from) ==
            if from < |bs| then (if bs[from] != [] then (Land(table, from, bs[from]), Some(bs[from][0].key))
                                 else Scanned(d, table, from + 1))
            else if Rehashing(d) && table == 0 then Scanned(d, 1, 0)
            else (Iter(table, from, None, None), None)
  {
  }

  lemma {:induction false} SuffixAt<K, V>(c: seq<Entry<K, V>>, k: K, i: nat)
    requires i < |c| && c[i].key == k && ChainRemove(c, k) == c[..i] + c[i + 1..]
    requires Distinct(c)
    ensures Suffix(c, k) == c[i..]
  {
    if c[0].key != k {
      assert ChainRemove(c, k)[1..] == ChainRemove(c[1..], k);
      assert (c[..i] + c[i + 1..])[1..] == c[1..][..i - 1] + c[1..][i..];
      SuffixAt(c[1..], k, i - 1);
    }
  }
}
