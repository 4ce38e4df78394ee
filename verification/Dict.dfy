/** dict.c: a chained hash table that doubles when it is full, refines a finite map. */
module Dict {
  import opened Bits
  import opened RespSpec

  const DICT_HT_INITIAL_SIZE: nat := 4

  datatype Entry<K, V> = Entry(key: K, val: V)

  // ---------------------------------------------------------------------- chains

  /** The value of the first entry with the key. */
  function Find<K(==), V>(chain: seq<Entry<K, V>>, key: K): (r: Option<V>) {
    if chain == [] then None
    else if chain[0].key == key then Some(chain[0].val)
    else Find(chain[1..], key)
  }

  predicate Once<K(==), V>(chain: seq<Entry<K, V>>) {
    forall i, j :: 0 <= i < j < |chain| ==> chain[i].key != chain[j].key
  }

  lemma {:induction false} FindIs<K, V>(chain: seq<Entry<K, V>>, key: K)
    ensures Find(chain, key).None? <==> forall i :: 0 <= i < |chain| ==> chain[i].key != key
    ensures Once(chain) ==>
              forall i :: 0 <= i < |chain| && chain[i].key == key ==> Find(chain, key) == Some(chain[i].val)
  {
    if chain == [] {
    } else {
      FindIs(chain[1..], key);
      assert forall i :: 1 <= i < |chain| ==> chain[i] == chain[1..][i - 1];
    }
  }

  /** The number of entries. */
  function Total<K, V>(table: seq<seq<Entry<K, V>>>): (r: nat) {
    if table == [] then 0 else |table[0]| + Total(table[1..])
  }

  lemma {:induction false} TotalUpdate<K, V>(table: seq<seq<Entry<K, V>>>, h: nat, chain: seq<Entry<K, V>>)
    requires h < |table|
    ensures Total(table[h := chain]) == Total(table) - |table[h]| + |chain|
  {
    if h == 0 {
      assert table[h := chain][1..] == table[1..];
    } else {
      TotalUpdate(table[1..], h - 1, chain);
      assert table[h := chain][1..] == table[1..][h - 1 := chain];
    }
  }

  lemma {:induction false} TotalZero<K, V>(table: seq<seq<Entry<K, V>>>)
    ensures Total(table) == 0 <==> forall i :: 0 <= i < |table| ==> table[i] == []
  {
    if table == [] {
    } else {
      TotalZero(table[1..]);
      assert forall i :: 1 <= i < |table| ==> table[i] == table[1..][i - 1];
    }
  }

  function Empties<K, V>(size: nat): (r: seq<seq<Entry<K, V>>>)
    ensures |r| == size && forall i :: 0 <= i < size ==> r[i] == []
  {
    seq(size, _ => [])
  }

  // ----------------------------------------------------------------------- tables

  /** `hash & sizemask`: the size is a power of two. */
  function Slot(h: nat, size: nat): (r: nat)
    requires size > 0
    ensures r < size
  {
    h % size
  }

  /** The masked hash is the hash modulo the size. */
  lemma SlotIsMask(h: nat, bits: nat)
    ensures Slot(h, Pow2(bits)) == Low(h, bits)
  {
    LowIsMod(h, bits);
  }

  ghost predicate IsPower(size: nat) {
    exists b: nat :: size == Pow2(b)
  }

  /** Every entry is in the chain of its masked hash, every key at most once. */
  ghost predicate Placed<K(!new), V>(table: seq<seq<Entry<K, V>>>, hash: K -> nat) {
    && (forall h, i :: 0 <= h < |table| && 0 <= i < |table[h]| ==> Slot(hash(table[h][i].key), |table|) == h)
    && (forall h :: 0 <= h < |table| ==> Once(table[h]))
  }

  function Look<K(==), V>(table: seq<seq<Entry<K, V>>>, hash: K -> nat, key: K): (r: Option<V>) {
    if table == [] then None else Find(table[Slot(hash(key), |table|)], key)
  }

  /** The table holds the map. */
  ghost predicate Holds<K(!new), V>(table: seq<seq<Entry<K, V>>>, hash: K -> nat, m: map<K, V>) {
    forall k: K :: Look(table, hash, k) == if k in m then Some(m[k]) else None
  }

  ghost predicate TableOk<K(!new), V>(table: seq<seq<Entry<K, V>>>, hash: K -> nat, m: map<K, V>, used: nat) {
    Placed(table, hash) && Holds(table, hash, m) && used == Total(table) == |m| && (table == [] || IsPower(|table|))
  }

  /** A new entry in front of its chain. */
  lemma PushOk<K(!new), V>(table: seq<seq<Entry<K, V>>>, hash: K -> nat, m: map<K, V>, used: nat, key: K, val: V)
    requires TableOk(table, hash, m, used) && table != [] && key !in m
    ensures var h := Slot(hash(key), |table|);
            TableOk(table[h := [Entry(key, val)] + table[h]], hash, m[key := val], used + 1)
  {
    var h := Slot(hash(key), |table|);
    var chain := [Entry(key, val)] + table[h];
    var r := table[h := chain];
    TotalUpdate(table, h, chain);
    assert Look(table, hash, key).None?;
    FindIs(table[h], key);
    assert chain[1..] == table[h];
    forall k: K
      ensures Look(r, hash, k) == if k in m[key := val] then Some(m[key := val][k]) else None
    {
      assert Look(table, hash, k) == if k in m then Some(m[k]) else None;
    }
    PlacedPush(table, hash, key, val);
  }

  lemma PlacedPush<K(!new), V>(table: seq<seq<Entry<K, V>>>, hash: K -> nat, key: K, val: V)
    requires Placed(table, hash) && table != []
    requires forall i :: 0 <= i < |table[Slot(hash(key), |table|)]| ==> table[Slot(hash(key), |table|)][i].key != key
    ensures var h := Slot(hash(key), |table|); Placed(table[h := [Entry(key, val)] + table[h]], hash)
  {
    var h := Slot(hash(key), |table|);
    var chain := [Entry(key, val)] + table[h];
    var r := table[h := chain];
    assert forall i :: 1 <= i < |chain| ==> chain[i] == table[h][i - 1];
  }

  // ------------------------------------------------------------------- the class

  class Table<K(==, !new), V> {
    const hash: K -> nat
    var table: seq<seq<Entry<K, V>>>
    var used: nat
    ghost var model: map<K, V>

    ghost predicate Valid()
      reads this
    {
      TableOk(table, hash, model, used)
    }

    /** dictCreate */
    constructor (hash: K -> nat)
      ensures Valid() && model == map[] && this.hash == hash
    {
      this.hash := hash;
      table, used, model := [], 0, map[];
    }

    /** dictFind */
    method Get(key: K) returns (r: Option<V>)
      requires Valid()
      ensures r == if key in model then Some(model[key]) else None
    {
      assert Look(table, hash, key) == if key in model then Some(model[key]) else None;
      if |table| == 0 {
        return None;
      }
      r := Search(table[Slot(hash(key), |table|)], key);
    }

    /** _dictNextPower */
    static method NextPower(size: nat) returns (i: nat)
      ensures i >= size && i >= DICT_HT_INITIAL_SIZE && IsPower(i)
    {
      i := DICT_HT_INITIAL_SIZE;
      ghost var b := 2;
      assert Pow2(2) == 4;
      while i < size
        invariant i == Pow2(b) && i >= DICT_HT_INITIAL_SIZE
        decreases size - i
      {
        i := i * 2;
        b := b + 1;
      }
    }

    /** dictExpand: false if there would be fewer chains than entries. */
    method Expand(size: nat) returns (ok: bool)
      requires Valid()
      modifies this`table
      ensures Valid() && ok == (used <= size) && (ok ==> |table| >= size && table != [])
              && (!ok ==> table == old(table))
    {
      hide TableOk;
      var realsize := NextPower(size);
      if used > size {
        return false;
      }
      var n := Rehash(realsize);
      table := n;
      return true;
    }

    /** Every entry goes to the front of its new chain. */
    method Rehash(realsize: nat) returns (n: seq<seq<Entry<K, V>>>)
      requires Valid() && IsPower(realsize) && realsize > 0
      ensures |n| == realsize && TableOk(n, hash, model, used)
    {
      hide TableOk, Moved, Total, Holds, IsPower, Find, Look, Once, Placed, Slot, Pow2, Valid;
      ValidFacts();
      n := NewTable(realsize, hash);
      FirstMoved(table, hash, model);
      ghost var moved: map<K, V>, done := map[], 0;
      var left, i := used, 0;
      assert table[0..] == table;
      while i < |table| && left > 0
        invariant i <= |table| && |n| == realsize && TableOk(n, hash, moved, done) && left == Total(table[i..])
        invariant Moved(table, hash, model, i, 0, moved) && done + left == used
      {
        n, moved, left, done := MoveChain(n, i, left, moved, done);
        i := i + 1;
      }
      NoneLeft(table, i);
      Rehashed(table, hash, model, used, i, n, moved, done);
    }

    lemma ValidFacts()
      requires Valid()
      ensures Holds(table, hash, model) && used == Total(table)
    {
      hide Holds, Total, Placed;
    }

    /** The entries of one chain. */
    method MoveChain(n0: seq<seq<Entry<K, V>>>, i: nat, left0: nat, ghost moved0: map<K, V>, ghost done0: nat)
      returns (n: seq<seq<Entry<K, V>>>, ghost moved: map<K, V>, left: nat, ghost done: nat)
      requires Valid() && i < |table| && n0 != [] && TableOk(n0, hash, moved0, done0) && left0 == Total(table[i..])
      requires Moved(table, hash, model, i, 0, moved0)
      ensures |n| == |n0| && TableOk(n, hash, moved, done) && left == Total(table[i + 1..])
              && done + left == done0 + left0
      ensures Moved(table, hash, model, i + 1, 0, moved)
    {
      hide TableOk, Moved, Placed, Holds, Once, IsPower, Slot;
      n, left := n0, left0;
      moved, done := moved0, done0;
      var j := 0;
      assert table[i..][1..] == table[i + 1..];
      while j < |table[i]|
        invariant j <= |table[i]| && |n| == |n0| && TableOk(n, hash, moved, done) && left == left0 - j
                  && done == done0 + j
        invariant Moved(table, hash, model, i, j, moved)
      {
        var e := table[i][j];
        MovedNext(table, hash, model, used, i, j, moved);
        PushOk(n, hash, moved, done, e.key, e.val);
        var h := Slot(hash(e.key), |n|);
        n := n[h := [e] + n[h]];
        moved, done := moved[e.key := e.val], done + 1;
        left := left - 1;
        j := j + 1;
      }
      ValidFacts();
      MovedChain(table, hash, model, i, moved);
    }

    /** _dictExpandIfNeeded */
    method ExpandIfNeeded()
      requires Valid()
      modifies this`table
      ensures Valid() && table != []
    {
      hide TableOk;
      EnoughRoom();
      var ok := true;
      if |table| == 0 {
        ok := Expand(DICT_HT_INITIAL_SIZE);
      } else if used == |table| {
        ok := Expand(2 * |table|);
      }
    }

    lemma EnoughRoom()
      requires Valid()
      ensures table == [] ==> used == 0
    {
    }

    /** dictAdd: refused if the key is there. */
    method Add(key: K, val: V) returns (ok: bool)
      requires Valid()
      modifies this
      ensures Valid() && ok == (key !in old(model)) && model == (if ok then old(model)[key := val] else old(model))
              && table != []
    {
      hide TableOk, Find;
      ExpandIfNeeded();
      Looked(table, hash, model, used, key);
      var h := Slot(hash(key), |table|);
      var r := Search(table[h], key);
      if r.Some? {
        return false;
      }
      PushOk(table, hash, model, used, key, val);
      table := table[h := [Entry(key, val)] + table[h]];
      used := used + 1;
      model := model[key := val];
      return true;
    }

    /** dictReplace: true if the key is new. */
    method Replace(key: K, val: V) returns (added: bool)
      requires Valid()
      modifies this
      ensures Valid() && added == (key !in old(model)) && model == old(model)[key := val]
    {
      hide TableOk, Find, WithValue;
      added := Add(key, val);
      if added {
        return;
      }
      Looked(table, hash, model, used, key);
      var h := Slot(hash(key), |table|);
      SetOk(table, hash, model, used, key, val);
      var i := Index(table[h], key);
      table := table[h := table[h][i := Entry(key, val)]];
      model := model[key := val];
    }

    /** dictDelete */
    method Delete(key: K) returns (ok: bool)
      requires Valid()
      modifies this
      ensures Valid() && ok == (key in old(model)) && model == old(model) - {key}
      ensures |table| == old(|table|)
      ensures forall x :: 0 <= x < |table| && x != Slot(hash(key), |table|) ==> table[x] == old(table)[x]
    {
      hide TableOk, Find, Without;
      LookedEmpty(table, hash, model, used, key);
      if |table| == 0 {
        return false;
      }
      Looked(table, hash, model, used, key);
      var h := Slot(hash(key), |table|);
      var i := Index(table[h], key);
      if i == |table[h]| {
        assert model - {key} == model;
        return false;
      }
      RemoveOk(table, hash, model, used, key);
      table := table[h := table[h][..i] + table[h][i + 1..]];
      used := used - 1;
      model := model - {key};
      return true;
    }
  }

  method Search<K(==), V>(chain: seq<Entry<K, V>>, key: K) returns (r: Option<V>)
    ensures r == Find(chain, key)
  {
    var i := 0;
    assert chain[0..] == chain;
    while i < |chain|
      invariant i <= |chain| && Find(chain, key) == Find(chain[i..], key)
    {
      if chain[i].key == key {
        return Some(chain[i].val);
      }
      assert chain[i..][1..] == chain[i + 1..];
      i := i + 1;
    }
    return None;
  }

  // -------------------------------------------------------------------- moving

  lemma FirstMoved<K(!new), V>(table: seq<seq<Entry<K, V>>>, hash: K -> nat, m: map<K, V>)
    ensures Moved(table, hash, m, 0, 0, map[])
  {
  }

  lemma NoneLeft<K, V>(table: seq<seq<Entry<K, V>>>, i: nat)
    requires i <= |table|
    ensures i == |table| ==> Total(table[i..]) == 0
  {
  }

  lemma EmptyOk<K(!new), V>(size: nat, hash: K -> nat)
    requires IsPower(size)
    ensures TableOk<K, V>(Empties(size), hash, map[], 0)
  {
    TotalZero<K, V>(Empties(size));
  }

  method NewTable<K(!new), V>(size: nat, hash: K -> nat) returns (n: seq<seq<Entry<K, V>>>)
    requires IsPower(size)
    ensures |n| == size && TableOk(n, hash, map[], 0)
  {
    EmptyOk<K, V>(size, hash);
    n := Empties(size);
  }

  /** The keys moved are those of the chains before i and of the first j entries of
      chain i. */
  ghost predicate Moved<K(!new), V>(table: seq<seq<Entry<K, V>>>, hash: K -> nat, m: map<K, V>, i: nat, j: nat,
                          moved: map<K, V>)
    requires i <= |table|
  {
    && (forall k :: k in moved ==> k in m && moved[k] == m[k])
    && forall k :: k in m && table != [] ==>
         var h := Slot(hash(k), |table|);
         (k in moved <==> h < i || (h == i && exists x :: 0 <= x < j && x < |table[h]| && table[h][x].key == k))
  }

  lemma MovedNext<K(!new), V>(table: seq<seq<Entry<K, V>>>, hash: K -> nat, m: map<K, V>, used: nat, i: nat, j: nat,
                    moved: map<K, V>)
    requires TableOk(table, hash, m, used) && i < |table| && j < |table[i]| && Moved(table, hash, m, i, j, moved)
    ensures var e := table[i][j];
            e.key !in moved && e.key in m && m[e.key] == e.val && Moved(table, hash, m, i, j + 1, moved[e.key := e.val])
  {
    var e := table[i][j];
    FindIs(table[i], e.key);
    assert Slot(hash(e.key), |table|) == i;
    assert Look(table, hash, e.key) == Some(e.val);
  }

  lemma MovedChain<K(!new), V>(table: seq<seq<Entry<K, V>>>, hash: K -> nat, m: map<K, V>, i: nat, moved: map<K, V>)
    requires Holds(table, hash, m) && i < |table| && Moved(table, hash, m, i, |table[i]|, moved)
    ensures Moved(table, hash, m, i + 1, 0, moved)
  {
    forall k | k in m && Slot(hash(k), |table|) == i
      ensures exists x :: 0 <= x < |table[i]| && table[i][x].key == k
    {
      assert Look(table, hash, k) == Some(m[k]);
      FindIs(table[i], k);
    }
  }

  lemma Rehashed<K(!new), V>(table: seq<seq<Entry<K, V>>>, hash: K -> nat, m: map<K, V>, used: nat, i: nat,
                             n: seq<seq<Entry<K, V>>>, moved: map<K, V>, done: nat)
    requires Holds(table, hash, m) && i <= |table| && Moved(table, hash, m, i, 0, moved)
             && (i == |table| || Total(table[i..]) == 0)
    requires TableOk(n, hash, moved, done) && done == used
    ensures TableOk(n, hash, m, used)
  {
    AllMoved(table, hash, m, i, moved);
  }

  lemma AllMoved<K(!new), V>(table: seq<seq<Entry<K, V>>>, hash: K -> nat, m: map<K, V>, i: nat, moved: map<K, V>)
    requires Holds(table, hash, m) && i <= |table| && Moved(table, hash, m, i, 0, moved)
             && (i == |table| || Total(table[i..]) == 0)
    ensures moved == m
  {
    TotalZero(table[i..]);
    assert forall x :: i <= x < |table| ==> table[x] == table[i..][x - i];
    forall k | k in m
      ensures k in moved
    {
      assert Look(table, hash, k) == Some(m[k]);
      FindIs(table[Slot(hash(k), |table|)], k);
    }
  }

  // ----------------------------------------------------------- changing and removing

  /** Where the key is in the chain, or its length. */
  function Place<K(==), V>(chain: seq<Entry<K, V>>, key: K): (r: nat)
    ensures r <= |chain| && (r < |chain| ==> chain[r].key == key) && forall i :: 0 <= i < r ==> chain[i].key != key
  {
    if chain == [] || chain[0].key == key then 0 else 1 + Place(chain[1..], key)
  }

  method Index<K(==), V>(chain: seq<Entry<K, V>>, key: K) returns (i: nat)
    ensures i == Place(chain, key)
  {
    i := 0;
    assert chain[0..] == chain;
    while i < |chain| && chain[i].key != key
      invariant i <= |chain| && Place(chain, key) == i + Place(chain[i..], key)
    {
      assert chain[i..][1..] == chain[i + 1..];
      i := i + 1;
    }
  }

  function WithValue<K(==), V>(chain: seq<Entry<K, V>>, key: K, val: V): (r: seq<Entry<K, V>>)
    requires Place(chain, key) < |chain|
  {
    chain[Place(chain, key) := Entry(key, val)]
  }

  function Without<K(==), V>(chain: seq<Entry<K, V>>, key: K): (r: seq<Entry<K, V>>)
    requires Place(chain, key) < |chain|
  {
    chain[..Place(chain, key)] + chain[Place(chain, key) + 1..]
  }

  lemma LookedEmpty<K(!new), V>(table: seq<seq<Entry<K, V>>>, hash: K -> nat, m: map<K, V>, used: nat, key: K)
    requires TableOk(table, hash, m, used)
    ensures table == [] ==> key !in m && m - {key} == m
  {
    assert Look(table, hash, key) == if key in m then Some(m[key]) else None;
  }

  /** The search in the chain of the masked hash decides. */
  lemma Looked<K(!new), V>(table: seq<seq<Entry<K, V>>>, hash: K -> nat, m: map<K, V>, used: nat, key: K)
    requires TableOk(table, hash, m, used) && table != []
    ensures var chain := table[Slot(hash(key), |table|)];
            && Find(chain, key) == (if key in m then Some(m[key]) else None)
            && (Place(chain, key) < |chain| <==> key in m)
  {
    assert Look(table, hash, key) == if key in m then Some(m[key]) else None;
    FindIs(table[Slot(hash(key), |table|)], key);
  }

  lemma {:induction false} FindWithValue<K, V>(chain: seq<Entry<K, V>>, key: K, val: V, k: K)
    requires Place(chain, key) < |chain|
    ensures Find(WithValue(chain, key, val), k) == if k == key then Some(val) else Find(chain, k)
  {
    if chain[0].key != key {
      FindWithValue(chain[1..], key, val, k);
      assert WithValue(chain, key, val)[1..] == WithValue(chain[1..], key, val);
    } else {
      assert WithValue(chain, key, val)[1..] == chain[1..];
    }
  }

  lemma {:induction false} FindWithout<K, V>(chain: seq<Entry<K, V>>, key: K, k: K)
    requires Place(chain, key) < |chain| && Once(chain)
    ensures Find(Without(chain, key), k) == if k == key then None else Find(chain, k)
  {
    if chain[0].key != key {
      assert Once(chain[1..]);
      FindWithout(chain[1..], key, k);
      assert Without(chain, key) == [chain[0]] + Without(chain[1..], key);
    } else {
      assert Without(chain, key) == chain[1..];
      FindIs(chain[1..], key);
      assert forall i :: 0 <= i < |chain[1..]| ==> chain[1..][i] == chain[i + 1];
    }
  }

  /** A chain whose keys are among those of the old one. */
  lemma PlacedUpdate<K(!new), V>(table: seq<seq<Entry<K, V>>>, hash: K -> nat, h: nat, chain: seq<Entry<K, V>>)
    requires Placed(table, hash) && h < |table| && Once(chain)
    requires forall x :: 0 <= x < |chain| ==> Slot(hash(chain[x].key), |table|) == h
    ensures Placed(table[h := chain], hash)
  {
    hide Once, Slot;
  }

  lemma SetOnce<K(!new), V>(table: seq<seq<Entry<K, V>>>, hash: K -> nat, h: nat, key: K, val: V)
    requires Placed(table, hash) && h < |table| && Place(table[h], key) < |table[h]|
    ensures Placed(table[h := WithValue(table[h], key, val)], hash)
  {
    hide Slot;
    var chain := WithValue(table[h], key, val);
    assert Once(table[h]);
    assert forall x :: 0 <= x < |chain| ==> chain[x].key == table[h][x].key;
    PlacedUpdate(table, hash, h, chain);
  }

  lemma RemoveOnce<K(!new), V>(table: seq<seq<Entry<K, V>>>, hash: K -> nat, h: nat, key: K)
    requires Placed(table, hash) && h < |table| && Place(table[h], key) < |table[h]|
    ensures Placed(table[h := Without(table[h], key)], hash)
  {
    hide Slot;
    var i, chain := Place(table[h], key), Without(table[h], key);
    assert Once(table[h]);
    assert forall x :: 0 <= x < |chain| ==> chain[x] == table[h][if x < i then x else x + 1];
    PlacedUpdate(table, hash, h, chain);
  }

  lemma SetHolds<K(!new), V>(table: seq<seq<Entry<K, V>>>, hash: K -> nat, m: map<K, V>, key: K, val: V)
    requires Holds(table, hash, m) && table != []
             && Place(table[Slot(hash(key), |table|)], key) < |table[Slot(hash(key), |table|)]|
    ensures var h := Slot(hash(key), |table|); Holds(table[h := WithValue(table[h], key, val)], hash, m[key := val])
  {
    hide Find, WithValue, Slot;
    var h := Slot(hash(key), |table|);
    var r := table[h := WithValue(table[h], key, val)];
    forall k: K
      ensures Look(r, hash, k) == if k in m[key := val] then Some(m[key := val][k]) else None
    {
      assert Look(table, hash, k) == if k in m then Some(m[k]) else None;
      FindWithValue(table[h], key, val, k);
    }
  }

  lemma RemoveHolds<K(!new), V>(table: seq<seq<Entry<K, V>>>, hash: K -> nat, m: map<K, V>, key: K)
    requires Holds(table, hash, m) && Placed(table, hash) && table != []
    requires Place(table[Slot(hash(key), |table|)], key) < |table[Slot(hash(key), |table|)]|
    ensures var h := Slot(hash(key), |table|); Holds(table[h := Without(table[h], key)], hash, m - {key})
  {
    hide Find, Without, Slot;
    var h := Slot(hash(key), |table|);
    assert Once(table[h]);
    var r := table[h := Without(table[h], key)];
    forall k: K
      ensures Look(r, hash, k) == if k in m - {key} then Some((m - {key})[k]) else None
    {
      assert Look(table, hash, k) == if k in m then Some(m[k]) else None;
      FindWithout(table[h], key, k);
    }
  }

  lemma SetOk<K(!new), V>(table: seq<seq<Entry<K, V>>>, hash: K -> nat, m: map<K, V>, used: nat, key: K, val: V)
    requires TableOk(table, hash, m, used) && key in m && table != []
    ensures var h := Slot(hash(key), |table|);
            var i := Place(table[h], key);
            i < |table[h]| && TableOk(table[h := table[h][i := Entry(key, val)]], hash, m[key := val], used)
  {
    hide Placed, Holds, Total, IsPower, Slot;
    var h := Slot(hash(key), |table|);
    Looked(table, hash, m, used, key);
    var chain := WithValue(table[h], key, val);
    TotalUpdate(table, h, chain);
    SetHolds(table, hash, m, key, val);
    SetOnce(table, hash, h, key, val);
    assert m[key := val].Keys == m.Keys;
  }

  lemma RemoveOk<K(!new), V>(table: seq<seq<Entry<K, V>>>, hash: K -> nat, m: map<K, V>, used: nat, key: K)
    requires TableOk(table, hash, m, used) && key in m && table != []
    ensures var h := Slot(hash(key), |table|);
            var i := Place(table[h], key);
            i < |table[h]| && used > 0
            && TableOk(table[h := table[h][..i] + table[h][i + 1..]], hash, m - {key}, used - 1)
  {
    hide Placed, Holds, Total, IsPower, Slot;
    var h := Slot(hash(key), |table|);
    Looked(table, hash, m, used, key);
    var chain := Without(table[h], key);
    TotalUpdate(table, h, chain);
    RemoveHolds(table, hash, m, key);
    RemoveOnce(table, hash, h, key);
    assert m == (m - {key})[key := m[key]];
  }

  // -------------------------------------------------------------------- the iterator

  /** All entries, chain by chain. */
  function Flat<K, V>(table: seq<seq<Entry<K, V>>>): (r: seq<Entry<K, V>>) {
    if table == [] then [] else table[0] + Flat(table[1..])
  }

  /** The entries of the chains from i on. */
  function FlatFrom<K, V>(table: seq<seq<Entry<K, V>>>, i: int): (r: seq<Entry<K, V>>)
    requires 0 <= i
  {
    if i < |table| then Flat(table[i..]) else []
  }

  lemma FlatNext<K, V>(table: seq<seq<Entry<K, V>>>, i: nat)
    ensures i < |table| ==> FlatFrom(table, i) == table[i] + FlatFrom(table, i + 1)
    ensures FlatFrom(table, 0) == Flat(table)
  {
    assert table[0..] == table;
    if i < |table| {
      assert table[i..][1..] == table[i + 1..];
    }
  }

  /** All entries belong to the chain. */
  ghost predicate AllIn<K(!new), V>(chain: seq<Entry<K, V>>, hash: K -> nat, size: nat, h: int) {
    size > 0 && forall i :: 0 <= i < |chain| ==> Slot(hash(chain[i].key), size) == h
  }

  lemma TailIn<K(!new), V>(chain: seq<Entry<K, V>>, hash: K -> nat, size: nat, h: int)
    requires chain != [] && AllIn(chain, hash, size, h)
    ensures AllIn(chain[1..], hash, size, h) && Slot(hash(chain[0].key), size) == h
  {
  }

  /** dictIterator: entry and nextEntry are what is left of a chain from an entry on, the
      empty sequence standing for NULL. */
  class Cursor<K(==, !new), V> {
    const ht: Table<K, V>
    var index: int
    var entry: seq<Entry<K, V>>
    var nextEntry: seq<Entry<K, V>>

    /** The chain being visited is, or was, that at index. */
    ghost predicate Valid()
      reads this, ht
    {
      && -1 <= index
      && (entry != [] ==> nextEntry == entry[1..] && 0 <= index < |ht.table|)
      && (entry != [] ==> AllIn(entry, ht.hash, |ht.table|, index))
    }

    /** What is yet to be visited. */
    ghost function Left(): (r: seq<Entry<K, V>>)
      requires Valid()
      reads this, ht
    {
      (if entry == [] then [] else nextEntry) + FlatFrom(ht.table, index + 1)
    }

    /** dictGetIterator */
    constructor (ht: Table<K, V>)
      ensures Valid() && this.ht == ht && Left() == Flat(ht.table)
    {
      this.ht, index, entry, nextEntry := ht, -1, [], [];
      new;
      FlatNext(ht.table, 0);
    }

    /** dictNext */
    method Next() returns (r: Option<Entry<K, V>>)
      requires Valid() && ht.Valid()
      modifies this
      ensures Valid() && (r.None? <==> old(Left()) == [])
      ensures r.Some? ==> old(Left()) == [r.value] + Left() && entry != [] && entry[0] == r.value
    {
      hide FlatFrom, AllIn, TableOk;
      ghost var left := Left();
      while true
        invariant Valid() && Left() == left
        decreases if index < |ht.table| then |ht.table| - index else 0, |entry|
      {
        if entry == [] {
          index := index + 1;
          FlatNext(ht.table, index);
          if index >= |ht.table| {
            NoneFrom(ht.table, index);
            return None;
          }
          ChainSlots(ht.table, ht.hash, ht.model, ht.used, index);
          entry := ht.table[index];
        } else {
          TailIn(entry, ht.hash, |ht.table|, index);
          entry := nextEntry;
        }
        assert left == entry + FlatFrom(ht.table, index + 1);
        if entry != [] {
          SplitFirst(entry, FlatFrom(ht.table, index + 1));
          nextEntry := entry[1..];
          return Some(entry[0]);
        }
      }
    }
  }

  lemma ChainSlots<K(!new), V>(table: seq<seq<Entry<K, V>>>, hash: K -> nat, m: map<K, V>, used: nat, h: nat)
    requires TableOk(table, hash, m, used) && h < |table|
    ensures AllIn(table[h], hash, |table|, h)
  {
    hide Slot, Holds, Total, Once;
  }

  lemma SplitFirst<T>(s: seq<T>, t: seq<T>)
    requires s != []
    ensures s + t == [s[0]] + (s[1..] + t)
  {
  }

  lemma NoneFrom<K, V>(table: seq<seq<Entry<K, V>>>, i: nat)
    requires i >= |table|
    ensures FlatFrom(table, i) == []
  {
  }

  /** Deleting the entry just visited leaves what is yet to be visited. */
  lemma SameLeft<K, V>(table: seq<seq<Entry<K, V>>>, table': seq<seq<Entry<K, V>>>, i: nat)
    requires |table| == |table'| && forall x :: i <= x < |table| ==> table[x] == table'[x]
    ensures FlatFrom(table, i) == FlatFrom(table', i)
  {
    if i < |table| {
      assert table[i..] == table'[i..];
    }
  }

  /** The entry just visited is deleted; the cursor stays where it is. */
  method DeleteVisited<K(==, !new), V>(c: Cursor<K, V>, x: Entry<K, V>)
    requires c.ht.Valid() && c.Valid() && c.entry != [] && c.entry[0] == x
    modifies c.ht
    ensures c.ht.Valid() && c.Valid() && c.Left() == old(c.Left()) && c.ht.model == old(c.ht.model) - {x.key}
  {
    hide TableOk, FlatFrom, Slot, AllIn;
    ghost var table := c.ht.table;
    TailIn(c.entry, c.ht.hash, |table|, c.index);
    var _ := c.ht.Delete(x.key);
    SameLeft(table, c.ht.table, c.index + 1);
  }

  /** Visits every entry; the user may delete each one as it is visited. */
  method Visit<K(==, !new), V>(ht: Table<K, V>, delete: bool) returns (all: seq<Entry<K, V>>)
    requires ht.Valid()
    modifies ht
    ensures ht.Valid() && all == old(Flat(ht.table)) && |all| == |old(ht.model)|
    ensures forall e :: e in all ==> e.key in old(ht.model) && old(ht.model)[e.key] == e.val
    ensures forall k :: k in old(ht.model) ==> Entry(k, old(ht.model)[k]) in all
    ensures ht.model == if delete then map[] else old(ht.model)
  {
    hide TableOk, Flat, Cursor.Valid, Cursor.Left, Rest;
    ghost var table, m, used := ht.table, ht.model, ht.used;
    ghost var flat := Flat(table);
    var c := new Cursor(ht);
    all := [];
    RestNone(m);
    var e := c.Next();
    while e.Some?
      invariant ht.Valid() && c.ht == ht && c.Valid() && flat == all + (if e.Some? then [e.value] + c.Left() else [])
      invariant e.Some? ==> c.entry != [] && c.entry[0] == e.value
      invariant ht.model == if delete then Rest(m, all) else m
      decreases |flat| - |all|
    {
      var x := e.value;
      RestNext(m, all, x);
      if delete {
        DeleteVisited(c, x);
      }
      assert flat == all + [x] + c.Left();
      all := all + [x];
      e := c.Next();
    }
    assert all == flat;
    FlatOk(table, ht.hash, m, used);
    RestAll(m, all);
  }

  /** The map without the entries. */
  ghost function Rest<K(!new), V>(m: map<K, V>, all: seq<Entry<K, V>>): (r: map<K, V>) {
    map k | k in m && (forall i :: 0 <= i < |all| ==> all[i].key != k) :: m[k]
  }

  lemma RestNone<K(!new), V>(m: map<K, V>)
    ensures Rest(m, []) == m
  {
  }

  lemma RestNext<K(!new), V>(m: map<K, V>, all: seq<Entry<K, V>>, x: Entry<K, V>)
    ensures Rest(m, all + [x]) == Rest(m, all) - {x.key}
  {
    var l := all + [x];
    assert l[|all|] == x && forall i :: 0 <= i < |all| ==> l[i] == all[i];
  }

  lemma RestAll<K(!new), V>(m: map<K, V>, all: seq<Entry<K, V>>)
    requires forall k :: k in m ==> Entry(k, m[k]) in all
    ensures Rest(m, all) == map[]
  {
  }

  lemma FlatOk<K(!new), V>(table: seq<seq<Entry<K, V>>>, hash: K -> nat, m: map<K, V>, used: nat)
    requires TableOk(table, hash, m, used)
    ensures |Flat(table)| == |m|
    ensures forall e :: e in Flat(table) ==> e.key in m && m[e.key] == e.val
    ensures forall k :: k in m ==> Entry(k, m[k]) in Flat(table)
  {
    FlatTotal(table);
    forall e | e in Flat(table)
      ensures e.key in m && m[e.key] == e.val
    {
      var h, i := InChain(table, e);
      FindIs(table[h], e.key);
      assert Look(table, hash, e.key) == Some(e.val);
    }
    forall k | k in m
      ensures Entry(k, m[k]) in Flat(table)
    {
      assert Look(table, hash, k) == Some(m[k]);
      var h := Slot(hash(k), |table|);
      FindIs(table[h], k);
      var i :| 0 <= i < |table[h]| && table[h][i].key == k;
      ChainIn(table, h, i);
    }
  }

  lemma {:induction false} FlatTotal<K, V>(table: seq<seq<Entry<K, V>>>)
    ensures |Flat(table)| == Total(table)
  {
    if table == [] {
    } else {
      FlatTotal(table[1..]);
    }
  }

  lemma {:induction false} InChain<K, V>(table: seq<seq<Entry<K, V>>>, e: Entry<K, V>) returns (h: nat, i: nat)
    requires e in Flat(table)
    ensures h < |table| && i < |table[h]| && table[h][i] == e
  {
    if e in table[0] {
      h := 0;
      i :| 0 <= i < |table[0]| && table[0][i] == e;
    } else {
      h, i := InChain(table[1..], e);
      h := h + 1;
    }
  }

  lemma {:induction false} ChainIn<K, V>(table: seq<seq<Entry<K, V>>>, h: nat, i: nat)
    requires h < |table| && i < |table[h]|
    ensures table[h][i] in Flat(table)
  {
    if h == 0 {
      assert Flat(table)[i] == table[0][i];
    } else {
      ChainIn(table[1..], h - 1, i);
    }
  }
}
