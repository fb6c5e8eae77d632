/** A JavaScript `Map<string, V>`: key/value entries kept in insertion order.
    `set` on an existing key replaces the value in place, `get` finds the
    entry for a key, `delete` removes it, and iteration follows insertion
    order. */
module Table {
  import opened Wrappers

  datatype Entry<V> = Entry(key: string, value: V)

  type Table<V> = seq<Entry<V>>

  /** The keys in iteration order, `Array.from(map.keys())`. */
  function Keys<V>(t: Table<V>): (r: seq<string>)
    ensures |r| == |t|
    ensures forall i :: 0 <= i < |t| ==> r[i] == t[i].key
  {
    if |t| == 0 then [] else [t[0].key] + Keys(t[1..])
  }

  /** The values in iteration order, `Array.from(map.values())`. */
  function Values<V>(t: Table<V>): (r: seq<V>)
    ensures |r| == |t|
    ensures forall i :: 0 <= i < |t| ==> r[i] == t[i].value
  {
    if |t| == 0 then [] else [t[0].value] + Values(t[1..])
  }

  /** A well-formed map never holds two entries with the same key. */
  predicate UniqueKeys<V>(t: Table<V>) {
    forall i, j :: 0 <= i < j < |t| ==> t[i].key != t[j].key
  }

  /** `map.get(k)`: the value of the first entry with key `k`. */
  function Get<V>(t: Table<V>, k: string): (r: Option<V>)
    ensures r.None? <==> k !in Keys(t)
  {
    if |t| == 0 then None
    else if t[0].key == k then Some(t[0].value)
    else Get(t[1..], k)
  }

  /** `map.get(k)` for a key that may be `undefined`, which no string key equals. */
  function GetOpt<V>(t: Table<V>, k: Option<string>): Option<V> {
    if k.Some? then Get(t, k.value) else None
  }

  /** `map.set(k, v)`: replaces the value in place when `k` is present, and
      appends a new entry otherwise. */
  function Set<V>(t: Table<V>, k: string, v: V): (r: Table<V>)
    ensures Get(r, k) == Some(v)
    ensures forall k' :: k' != k ==> Get(r, k') == Get(t, k')
    ensures Keys(r) == if Get(t, k).Some? then Keys(t) else Keys(t) + [k]
  {
    if |t| == 0 then [Entry(k, v)]
    else if t[0].key == k then
      SetFirst(t, v);
      [Entry(k, v)] + t[1..]
    else
      var rest := Set(t[1..], k, v);
      SetLater(t, k, v, rest);
      [t[0]] + rest
  }

  /** Replacing the first entry's value keeps every key where it was. */
  lemma SetFirst<V>(t: Table<V>, v: V)
    requires |t| > 0
    ensures var r := [Entry(t[0].key, v)] + t[1..];
      && Get(r, t[0].key) == Some(v)
      && (forall k' :: k' != t[0].key ==> Get(r, k') == Get(t, k'))
      && Keys(r) == Keys(t)
  {
    var r := [Entry(t[0].key, v)] + t[1..];
    assert r[1..] == t[1..];
  }

  /** Setting a key the first entry does not hold sets it in the rest. */
  lemma SetLater<V>(t: Table<V>, k: string, v: V, rest: Table<V>)
    requires |t| > 0 && t[0].key != k
    requires Get(rest, k) == Some(v)
    requires forall k' :: k' != k ==> Get(rest, k') == Get(t[1..], k')
    requires Keys(rest) == if Get(t[1..], k).Some? then Keys(t[1..]) else Keys(t[1..]) + [k]
    ensures var r := [t[0]] + rest;
      && Get(r, k) == Some(v)
      && (forall k' :: k' != k ==> Get(r, k') == Get(t, k'))
      && Keys(r) == if Get(t, k).Some? then Keys(t) else Keys(t) + [k]
  {
    var r := [t[0]] + rest;
    assert r[1..] == rest;
    assert Keys(r) == [t[0].key] + Keys(rest);
    assert Keys(t) == [t[0].key] + Keys(t[1..]);
    assert Keys(t) + [k] == [t[0].key] + (Keys(t[1..]) + [k]);
  }

  /** Setting a key to the value it already holds changes nothing. */
  lemma {:induction false} SetExisting<V>(t: Table<V>, k: string, v: V)
    requires Get(t, k) == Some(v)
    ensures Set(t, k, v) == t
  {
    if |t| > 0 {
      Recons(t);
      if t[0].key != k {
        SetExisting(t[1..], k, v);
        SetLaterUnfolds(t, k, v);
      }
    }
  }

  /** A non-empty sequence is its head followed by its tail. */
  lemma Recons<T>(s: seq<T>)
    requires |s| > 0
    ensures [s[0]] + s[1..] == s
  {
  }

  /** A key absent from a table is absent from its tail, and is not its
      first entry's. */
  lemma NewInRest<V>(t: Table<V>, k: string)
    requires |t| > 0 && k !in Keys(t)
    ensures t[0].key != k && k !in Keys(t[1..])
  {
    assert Keys(t)[0] == t[0].key;
    assert Get(t, k) == None;
  }

  /** Setting a key the first entry does not hold keeps that entry first. */
  lemma SetLaterUnfolds<V>(t: Table<V>, k: string, v: V)
    requires |t| > 0 && t[0].key != k
    ensures Set(t, k, v) == [t[0]] + Set(t[1..], k, v)
  {
  }

  lemma ConsSnoc<T>(s: seq<T>, x: T)
    requires |s| > 0
    ensures [s[0]] + (s[1..] + [x]) == s + [x]
  {
    assert s == [s[0]] + s[1..];
  }

  /** `set` keeps keys unique. */
  lemma SetUnique<V>(t: Table<V>, k: string, v: V)
    requires UniqueKeys(t)
    ensures UniqueKeys(Set(t, k, v))
  {
    var r := Set(t, k, v);
    UniqueKeysDistinct(t);
    UniqueKeysDistinct(r);
    if Get(t, k).None? {
      DistinctSnoc(Keys(t), k);
    }
  }

  /** No string occurs twice. */
  predicate Distinct(s: seq<string>) {
    forall i, j :: 0 <= i < j < |s| ==> s[i] != s[j]
  }

  /** Keys are unique exactly when the key sequence is duplicate-free. */
  lemma UniqueKeysDistinct<V>(t: Table<V>)
    ensures UniqueKeys(t) <==> Distinct(Keys(t))
  {
    var keys := Keys(t);
    assert forall i :: 0 <= i < |t| ==> keys[i] == t[i].key;
  }

  /** Appending a string not yet present keeps a sequence duplicate-free. */
  lemma DistinctSnoc(s: seq<string>, x: string)
    requires Distinct(s) && x !in s
    ensures Distinct(s + [x])
  {
    var r := s + [x];
    forall i, j | 0 <= i < j < |r| ensures r[i] != r[j] {
      assert r[i] == s[i];
    }
  }

  /** A new key is appended after every existing entry. */
  lemma {:induction false} SetNew<V>(t: Table<V>, k: string, v: V)
    requires k !in Keys(t)
    ensures Set(t, k, v) == t + [Entry(k, v)]
  {
    if |t| > 0 {
      NewInRest(t, k);
      SetNew(t[1..], k, v);
      SetLaterUnfolds(t, k, v);
      ConsSnoc(t, Entry(k, v));
    }
  }

  /** Every position one further on. */
  function Shift(ix: seq<nat>): (r: seq<nat>)
    ensures |r| == |ix|
    ensures forall k :: 0 <= k < |ix| ==> r[k] == ix[k] + 1
  {
    if |ix| == 0 then [] else [ix[0] + 1] + Shift(ix[1..])
  }

  /** The positions of the entries of `t` whose value fails `p`, in
      increasing order, each exactly once. */
  function KeptAt<V>(t: Table<V>, p: V -> bool): (ix: seq<nat>)
    ensures Positions(t, p, ix, 0)
    ensures forall j :: 0 <= j < |t| && !p(t[j].value) ==> j in ix
  {
    if |t| == 0 then []
    else
      var rest := KeptAt(t[1..], p);
      var shifted := Shift(rest);
      KeptAtStep(t, p, rest);
      if p(t[0].value) then shifted
      else
        KeptAtFirst(t, p, shifted);
        [0] + shifted
  }

  /** Putting a kept first entry's position in front keeps the list a list
      of kept positions. */
  lemma KeptAtFirst<V>(t: Table<V>, p: V -> bool, shifted: seq<nat>)
    requires |t| > 0 && !p(t[0].value)
    requires Positions(t, p, shifted, 1)
    requires forall j :: 1 <= j < |t| && !p(t[j].value) ==> j in shifted
    ensures Positions(t, p, [0] + shifted, 0)
    ensures forall j :: 0 <= j < |t| && !p(t[j].value) ==> j in [0] + shifted
  {
    var ix := [0] + shifted;
    forall k, l | 0 <= k < l < |ix| ensures ix[k] < ix[l] {
      assert ix[l] == shifted[l - 1];
      if k > 0 {
        assert ix[k] == shifted[k - 1];
      }
    }
    forall k | 0 <= k < |ix| ensures 0 <= ix[k] < |t| && !p(t[ix[k]].value) {
      if k > 0 {
        assert ix[k] == shifted[k - 1];
      }
    }
  }

  /** `ix` lists, in strictly increasing order, positions at or after `from`
      of entries whose value fails `p`. */
  predicate Positions<V>(t: Table<V>, p: V -> bool, ix: seq<nat>, from: nat) {
    && (forall k :: 0 <= k < |ix| ==> from <= ix[k] < |t| && !p(t[ix[k]].value))
    && (forall k, l :: 0 <= k < l < |ix| ==> ix[k] < ix[l])
  }

  /** The kept positions of the tail, shifted by one, are kept positions of
      the whole table after its first entry. */
  lemma {:induction false} KeptAtStep<V>(t: Table<V>, p: V -> bool, rest: seq<nat>)
    requires |t| > 0
    requires Positions(t[1..], p, rest, 0)
    requires forall j :: 0 <= j < |t| - 1 && !p(t[1..][j].value) ==> j in rest
    ensures Positions(t, p, Shift(rest), 1)
    ensures forall j :: 1 <= j < |t| && !p(t[j].value) ==> j in Shift(rest)
  {
    ShiftPositions(t, p, rest);
    ShiftCovers(t, p, rest);
  }

  lemma {:induction false} ShiftPositions<V>(t: Table<V>, p: V -> bool, rest: seq<nat>)
    requires |t| > 0
    requires Positions(t[1..], p, rest, 0)
    ensures Positions(t, p, Shift(rest), 1)
  {
    var shifted := Shift(rest);
    forall k | 0 <= k < |shifted| ensures 1 <= shifted[k] < |t| && !p(t[shifted[k]].value) {
      assert t[shifted[k]] == t[1..][rest[k]];
    }
    forall k, l | 0 <= k < l < |shifted| ensures shifted[k] < shifted[l] {
      assert rest[k] < rest[l];
    }
  }

  lemma {:induction false} ShiftCovers<V>(t: Table<V>, p: V -> bool, rest: seq<nat>)
    requires |t| > 0
    requires forall j :: 0 <= j < |t| - 1 && !p(t[1..][j].value) ==> j in rest
    ensures forall j :: 1 <= j < |t| && !p(t[j].value) ==> j in Shift(rest)
  {
    var shifted := Shift(rest);
    forall j | 1 <= j < |t| && !p(t[j].value) ensures j in shifted {
      assert t[1..][j - 1] == t[j];
      var k :| 0 <= k < |rest| && rest[k] == j - 1;
      assert shifted[k] == j;
    }
  }

  /** Deleting, while iterating, every entry whose value satisfies `p`: the
      result is the entries at the kept positions, in their order. */
  function DeleteWhere<V>(t: Table<V>, p: V -> bool): (r: Table<V>)
    ensures |r| <= |t|
    ensures forall i :: 0 <= i < |r| ==> r[i] in t && !p(r[i].value)
    ensures forall i :: 0 <= i < |t| && !p(t[i].value) ==> t[i] in r
    ensures |r| == |KeptAt(t, p)|
    ensures forall k :: 0 <= k < |r| ==> r[k] == t[KeptAt(t, p)[k]]
  {
    if |t| == 0 then []
    else
      var rest := DeleteWhere(t[1..], p);
      if p(t[0].value) then
        DeleteWhereDrop(t, p, rest);
        KeptEntries(t, p, rest);
        rest
      else
        DeleteWhereKeep(t, p, rest);
        KeptEntries(t, p, [t[0]] + rest);
        [t[0]] + rest
  }

  /** The entries kept from the tail sit at the shifted kept positions of the
      tail. */
  lemma ShiftedKept<V>(t: Table<V>, p: V -> bool, rest: Table<V>)
    requires |t| > 0
    requires |rest| == |KeptAt(t[1..], p)|
    requires forall k :: 0 <= k < |rest| ==> rest[k] == t[1..][KeptAt(t[1..], p)[k]]
    ensures forall k :: 0 <= k < |rest| ==> rest[k] == t[Shift(KeptAt(t[1..], p))[k]]
  {
    var shifted := Shift(KeptAt(t[1..], p));
    forall k | 0 <= k < |rest| ensures rest[k] == t[shifted[k]] {
      assert t[1..][KeptAt(t[1..], p)[k]] == t[shifted[k]];
    }
  }

  /** When the first entry is deleted, the entries kept from the tail are
      the entries at the kept positions. */
  lemma DeleteWhereDrop<V>(t: Table<V>, p: V -> bool, rest: Table<V>)
    requires |t| > 0 && p(t[0].value)
    requires |rest| == |KeptAt(t[1..], p)|
    requires forall k :: 0 <= k < |rest| ==> rest[k] == t[1..][KeptAt(t[1..], p)[k]]
    ensures |rest| == |KeptAt(t, p)|
    ensures forall k :: 0 <= k < |rest| ==> rest[k] == t[KeptAt(t, p)[k]]
  {
    ShiftedKept(t, p, rest);
    assert KeptAt(t, p) == Shift(KeptAt(t[1..], p));
  }

  /** When the first entry is kept, it followed by the entries kept from the
      tail are the entries at the kept positions. */
  lemma DeleteWhereKeep<V>(t: Table<V>, p: V -> bool, rest: Table<V>)
    requires |t| > 0 && !p(t[0].value)
    requires |rest| == |KeptAt(t[1..], p)|
    requires forall k :: 0 <= k < |rest| ==> rest[k] == t[1..][KeptAt(t[1..], p)[k]]
    ensures |[t[0]] + rest| == |KeptAt(t, p)|
    ensures forall k :: 0 <= k < |rest| + 1 ==> ([t[0]] + rest)[k] == t[KeptAt(t, p)[k]]
  {
    var shifted := Shift(KeptAt(t[1..], p));
    var ix := KeptAt(t, p);
    var r := [t[0]] + rest;
    ShiftedKept(t, p, rest);
    assert ix == [0] + shifted;
    forall k | 0 <= k < |r| ensures r[k] == t[ix[k]] {
      if k > 0 {
        assert r[k] == rest[k - 1] && ix[k] == shifted[k - 1];
      }
    }
  }

  /** The entries at the kept positions are entries of `t` failing `p`, and
      every entry failing `p` is among them. */
  lemma KeptEntries<V>(t: Table<V>, p: V -> bool, r: Table<V>)
    requires |r| == |KeptAt(t, p)|
    requires forall k :: 0 <= k < |r| ==> r[k] == t[KeptAt(t, p)[k]]
    ensures forall i :: 0 <= i < |r| ==> r[i] in t && !p(r[i].value)
    ensures forall i :: 0 <= i < |t| && !p(t[i].value) ==> t[i] in r
  {
    var ix := KeptAt(t, p);
    forall i | 0 <= i < |t| && !p(t[i].value) ensures t[i] in r {
      var k :| 0 <= k < |ix| && ix[k] == i;
      assert r[k] == t[i];
    }
  }

  /** A value `get` finds is held by some entry of the map. */
  lemma {:induction false} GetHeld<V>(t: Table<V>, k: string)
    requires Get(t, k).Some?
    ensures exists i :: 0 <= i < |t| && t[i] == Entry(k, Get(t, k).value)
  {
    if t[0].key != k {
      GetHeld(t[1..], k);
      var i :| 0 <= i < |t[1..]| && t[1..][i] == Entry(k, Get(t, k).value);
      assert t[i + 1] == t[1..][i];
    }
  }

  /** After `set`, every entry holds the new value or was already there. */
  lemma {:induction false} SetHolds<V>(t: Table<V>, k: string, v: V)
    ensures forall i :: 0 <= i < |Set(t, k, v)| ==> Set(t, k, v)[i].value == v || Set(t, k, v)[i] in t
  {
    var r := Set(t, k, v);
    if |t| > 0 && t[0].key != k {
      SetHolds(t[1..], k, v);
      var rest := Set(t[1..], k, v);
      assert r == [t[0]] + rest;
      forall i | 0 <= i < |r| ensures r[i].value == v || r[i] in t {
        if i > 0 {
          assert r[i] == rest[i - 1];
          assert rest[i - 1] in t[1..] ==> rest[i - 1] in t;
        }
      }
    } else if |t| > 0 {
      forall i | 1 <= i < |r| ensures r[i] in t {
        assert r[i] == t[i];
      }
    }
  }
}
