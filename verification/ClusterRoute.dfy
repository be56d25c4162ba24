/** `getNodeByQuery` as src/cluster.c writes it, key by key over every queued command, against the decision
    `Route` makes on the whole set of keys. */
module ClusterRoute {
  import opened Options
  import opened ClusterView

  /** The local variables of the key loop. */
  datatype Tally<K> = Tally(first: Option<K>, migrating: bool, importing: bool, multiple: bool, missing: nat)

  /** What those variables mean after the keys in `seen`. */
  ghost predicate Tallied<K, V>(v: View<K, V>, seen: seq<K>, t: Tally<K>)
    requires Sized(v)
  {
    if seen == [] then t == Tally(None, false, false, false, 0)
    else
      var s := v.slotOf(seen[0]);
      && t.first == Some(seen[0]) && v.slots[s].Some? && OneSlot(v, seen)
      && t.migrating == MigratingSlot(v, s) && t.importing == ImportingSlot(v, s)
      && t.multiple == SeveralKeys(seen)
      && (t.missing > 0 <==> (t.migrating || t.importing) && Missing(v, seen))
  }

  lemma {:induction false} KeysSplit<K>(cmds: seq<seq<K>>, i: nat)
    requires i <= |cmds|
    ensures Keys(cmds) == Keys(cmds[..i]) + Keys(cmds[i..])
  {
    if i > 0 {
      KeysSplit(cmds[1..], i - 1);
      assert cmds[1..][..i - 1] == cmds[..i][1..] && cmds[1..][i - 1..] == cmds[i..];
    } else {
      assert cmds[..0] == [] && cmds[0..] == cmds;
    }
  }

  /** The keys up to the j-th key of command i are a prefix of all keys. */
  lemma KeysPrefix<K>(cmds: seq<seq<K>>, i: nat, j: nat)
    requires i < |cmds| && j <= |cmds[i]|
    ensures Keys(cmds[..i]) + cmds[i][..j] <= Keys(cmds)
    ensures Keys(cmds[..i + 1]) == Keys(cmds[..i]) + cmds[i]
  {
    KeysSplit(cmds, i);
    assert cmds[i..][0] == cmds[i];
    assert Keys(cmds[i..]) == cmds[i] + Keys(cmds[i..][1..]);
    KeysSplit(cmds[..i + 1], i);
    assert cmds[..i + 1][..i] == cmds[..i] && cmds[..i + 1][i..] == [cmds[i]];
    assert Keys([cmds[i]]) == cmds[i];
  }

  /** One round of the inner loop: an error ends the decision, whatever keys follow. */
  method NoteKey<K(==), V>(v: View<K, V>, k: K, t: Tally<K>, ghost seen: seq<K>)
      returns (t': Tally<K>, error: Option<Verdict>)
    requires Sized(v) && Tallied(v, seen, t)
    ensures error.None? ==> Tallied(v, seen + [k], t')
    ensures error == Some(DownUnbound) ==> seen == [] && v.slots[v.slotOf(k)].None?
    ensures error.Some? && error.value != DownUnbound ==>
            error.value == CrossSlot && seen != [] && v.slots[v.slotOf(seen[0])].Some? && !OneSlot(v, seen + [k])
  {
    t', error := t, None;
    var s := v.slotOf(k);
    if t.first.None? {
      if v.slots[s].None? { return t, Some(DownUnbound); }
      var migrating := v.slots[s] == Some(v.me) && v.migrating[s].Some?;
      t' := t.(first := Some(k), migrating := migrating, importing := !migrating && v.importing[s].Some?);
    } else if t.first.value != k {
      if v.slotOf(t.first.value) != s {
        assert (seen + [k])[|seen|] == k && (seen + [k])[0] == seen[0];
        return t, Some(CrossSlot);
      }
      t' := t.(multiple := true);
    }
    if (t'.migrating || t'.importing) && k !in v.db { t' := t'.(missing := t'.missing + 1); }
    NoteKeyKeeps(v, seen, k, t, t');
  }

  lemma NoteKeyKeeps<K, V>(v: View<K, V>, seen: seq<K>, k: K, t: Tally<K>, t': Tally<K>)
    requires Sized(v) && Tallied(v, seen, t)
    requires var s := v.slotOf(k);
      if seen == []
      then v.slots[s].Some? && t'.first == Some(k) && t'.migrating == MigratingSlot(v, s)
           && t'.importing == ImportingSlot(v, s) && !t'.multiple
      else t'.first == t.first && t'.migrating == t.migrating && t'.importing == t.importing
           && v.slotOf(seen[0]) == s && t'.multiple == (t.multiple || seen[0] != k)
    requires t'.missing == t.missing + if (t'.migrating || t'.importing) && k !in v.db then 1 else 0
    ensures Tallied(v, seen + [k], t')
  {
    var now := seen + [k];
    assert k in now && now[0] == if seen == [] then k else seen[0];
    assert forall x :: x in now <==> x in seen || x == k;
    assert Missing(v, now) <==> (seen != [] && Missing(v, seen)) || k !in v.db;
    assert seen != [] ==> (SeveralKeys(now) <==> SeveralKeys(seen) || seen[0] != k);
  }

  /** Errors found on a prefix of the keys are errors of the whole query. */
  lemma ErrorStays<K, V>(v: View<K, V>, q: Query<K>, seen: seq<K>)
    requires Sized(v) && seen != [] && seen <= Keys(q.cmds)
    ensures v.slots[v.slotOf(seen[0])].None? ==> Route(v, q) == DownUnbound
    ensures v.slots[v.slotOf(seen[0])].Some? && !OneSlot(v, seen) ==> Route(v, q) == CrossSlot
  {
    var ks := Keys(q.cmds);
    assert ks[0] == seen[0];
    forall k | k in seen ensures k in ks { }
  }

  /** The end of `getNodeByQuery`: the decision once every key was seen. */
  method Decide<K(==), V>(v: View<K, V>, q: Query<K>, t: Tally<K>) returns (r: Verdict)
    requires Sized(v) && Tallied(v, Keys(q.cmds), t)
    ensures r == Route(v, q)
  {
    if t.first.None? { return Serve; }
    var slot := v.slotOf(t.first.value);
    var n := v.slots[slot].value;
    if !v.up { return DownState; }
    if (t.migrating || t.importing) && q.isMigrate { return Serve; }
    if t.migrating && t.missing > 0 { return Ask(v.migrating[slot].value); }
    if t.importing && q.asking {
      if t.multiple && t.missing > 0 { return TryAgain; }
      return Serve;
    }
    if q.readonly && v.master.Some? && v.master.value == n { return Serve; }
    if n != v.me { return Moved(n); }
    return Serve;
  }

  method NoteCommand<K(==), V>(v: View<K, V>, q: Query<K>, i: nat, t: Tally<K>)
    returns (t': Tally<K>, error: Option<Verdict>)
    requires Sized(v) && i < |q.cmds| && Tallied(v, Keys(q.cmds[..i]), t)
    ensures if error.Some? then error.value == Route(v, q) else Tallied(v, Keys(q.cmds[..i + 1]), t')
  {
    t', error := t, None;
    ghost var before := Keys(q.cmds[..i]);
    assert before + q.cmds[i][..0] == before;
    for j := 0 to |q.cmds[i]|
      invariant Tallied(v, before + q.cmds[i][..j], t')
    {
      ghost var seen := before + q.cmds[i][..j];
      ghost var now := before + q.cmds[i][..j + 1];
      assert seen + [q.cmds[i][j]] == now;
      KeysPrefix(q.cmds, i, j + 1);
      ErrorStays(v, q, now);
      hide Tallied, Route, OneSlot;
      t', error := NoteKey(v, q.cmds[i][j], t', seen);
      if error.Some? { return t', error; }
    }
    KeysPrefix(q.cmds, i, |q.cmds[i]|);
    assert q.cmds[i][..|q.cmds[i]|] == q.cmds[i];
    return t', None;
  }

  method GetNodeByQuery<K(==), V>(v: View<K, V>, q: Query<K>) returns (r: Verdict)
    requires Sized(v)
    ensures r == Route(v, q)
  {
    var t: Tally<K> := Tally(None, false, false, false, 0);
    for i := 0 to |q.cmds|
      invariant Tallied(v, Keys(q.cmds[..i]), t)
    {
      var error;
      hide Tallied, Route;
      t, error := NoteCommand(v, q, i, t);
      if error.Some? { return error.value; }
    }
    assert q.cmds[..|q.cmds|] == q.cmds;
    hide Tallied, Route;
    assert q.cmds[..|q.cmds|] == q.cmds;
    r := Decide(v, q, t);
  }
}
