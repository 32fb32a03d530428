/**
 * `InMemoryStore`: named collections of entities, each collection a dictionary from entity id to
 * entity kept in insertion order. Entity data are dictionaries from field names to values.
 */
module Store {
  import opened Wrappers

  /** The values an entity's data can hold. `Null` is Python's `None`. */
  datatype Value =
    | Null
    | Bool(b: bool)
    | Int(i: int)
    | Str(s: string)
    | List(items: seq<Value>)
    | Dict(entries: map<string, Value>)

  /** Python truthiness: `None`, `False`, `0` and empty strings, lists and dictionaries are false. */
  predicate Truthy(v: Value) {
    match v
    case Null => false
    case Bool(b) => b
    case Int(i) => i != 0
    case Str(s) => |s| > 0
    case List(items) => |items| > 0
    case Dict(entries) => |entries| > 0
  }

  /**
   * A dictionary key up to Python's key equality: `True` and `1` (and `False` and `0`) are the
   * same key, a string never equals a number.
   */
  datatype Key = NoneKey | IntKey(i: int) | StrKey(s: string)

  /** The key a value stands for; lists and dictionaries are unhashable (`TypeError`). */
  function HashKey(v: Value): (r: Option<Key>)
    ensures r.None? <==> v.List? || v.Dict?
    ensures v.Str? ==> r == Some(StrKey(v.s))
    ensures v.Int? ==> r == Some(IntKey(v.i))
    ensures v.Bool? ==> r == Some(IntKey(if v.b then 1 else 0))
    ensures v.Null? ==> r == Some(NoneKey)
  {
    match v
    case Null => Some(NoneKey)
    case Bool(b) => Some(IntKey(if b then 1 else 0))
    case Int(i) => Some(IntKey(i))
    case Str(s) => Some(StrKey(s))
    case List(_) => None
    case Dict(_) => None
  }

  /** The number a boolean or an integer equals in Python (`True == 1`, `False == 0`). */
  function NumberOf(v: Value): Option<int> {
    match v
    case Bool(b) => Some(if b then 1 else 0)
    case Int(i) => Some(i)
    case _ => None
  }

  /** Python's `==` on hashable values: numbers by value, strings by text, `None` only with itself. */
  predicate SameKey(u: Value, v: Value) {
    || (u.Null? && v.Null?)
    || (u.Str? && v.Str? && u.s == v.s)
    || (NumberOf(u).Some? && NumberOf(u) == NumberOf(v))
  }

  /** Two hashable values give the same dictionary key exactly when Python finds them equal. */
  lemma HashKeyIsEquality(u: Value, v: Value)
    requires HashKey(u).Some? && HashKey(v).Some?
    ensures HashKey(u) == HashKey(v) <==> SameKey(u, v)
    ensures HashKey(Bool(true)) == HashKey(Int(1)) && HashKey(Bool(false)) == HashKey(Int(0))
  {
  }

  type Data = map<string, Value>

  /** A stored record: its data and two clock readings (given to the store as parameters). */
  datatype Entity = Entity(data: Data, createdAt: int, updatedAt: int)

  /** One collection: the ids in insertion order and the entity of each id. */
  datatype Table = Table(ids: seq<Key>, rows: map<Key, Entity>)

  predicate Distinct(ids: seq<Key>) {
    forall i, j :: 0 <= i < j < |ids| ==> ids[i] != ids[j]
  }

  /** The ids list each key of the dictionary exactly once; every stored record has an `id` field. */
  ghost predicate TableValid(tb: Table) {
    && Distinct(tb.ids)
    && (forall k :: k in tb.rows <==> k in tb.ids)
    && (forall k :: k in tb.rows ==> "id" in tb.rows[k].data)
  }

  const Empty: Table := Table([], map[])

  /** `dict.get(k)` on a collection, returning the entity's data. */
  function Lookup(tb: Table, k: Key): Option<Data> {
    if k in tb.rows then Some(tb.rows[k].data) else None
  }

  /** `values()` of a collection: the data in insertion order. */
  function Contents(tb: Table): (r: seq<Data>)
    requires TableValid(tb)
    ensures |r| == |tb.ids|
    ensures forall i :: 0 <= i < |tb.ids| ==> Lookup(tb, tb.ids[i]) == Some(r[i])
  {
    seq(|tb.ids|, i requires 0 <= i < |tb.ids| => tb.rows[tb.ids[i]].data)
  }

  /** `d[k] = e`: a new key goes last, an existing key keeps its position. */
  function Put(tb: Table, k: Key, e: Entity): Table {
    Table(if k in tb.rows then tb.ids else tb.ids + [k], tb.rows[k := e])
  }

  /** `ids` without `k`, in order. */
  function RemoveKey(ids: seq<Key>, k: Key): (r: seq<Key>)
    ensures forall j :: j in r <==> j in ids && j != k
  {
    if ids == [] then []
    else (if ids[0] == k then [] else [ids[0]]) + RemoveKey(ids[1..], k)
  }

  /** `del d[k]` */
  function Remove(tb: Table, k: Key): Table {
    Table(RemoveKey(tb.ids, k), tb.rows - {k})
  }

  /** The collection under `t`, or an empty one. */
  function TableOf(data: map<string, Table>, t: string): Table {
    if t in data then data[t] else Empty
  }

  /** `entity_data.get("id") or str(uuid4())`, with the generated id given as `newId`. */
  function ChooseId(d: Data, newId: string): Value {
    if "id" in d && Truthy(d["id"]) then d["id"] else Str(newId)
  }

  /** `dict.update`: every key of `updates` takes its new value, every other key keeps its own. */
  function Merge(d: Data, updates: Data): (r: Data)
    ensures r.Keys == d.Keys + updates.Keys
    ensures forall x :: x in updates ==> r[x] == updates[x]
    ensures forall x :: x in d && x !in updates ==> r[x] == d[x]
  {
    d + updates
  }

  /** A slice bound after Python's adjustment: negative counts from the end, then clipped to `0..n`. */
  function Bound(i: int, n: nat): (r: nat)
    ensures r <= n
    ensures 0 <= i <= n ==> r == i
    ensures i > n ==> r == n
    ensures i < 0 ==> r == (if n + i < 0 then 0 else n + i)
  {
    if i < 0 then (if n + i < 0 then 0 else n + i) else if i > n then n else i
  }

  /** `xs[start:stop]` */
  function Slice<T>(xs: seq<T>, start: int, stop: int): (r: seq<T>)
    ensures var lo, hi := Bound(start, |xs|), Bound(stop, |xs|);
      |r| == (if lo < hi then hi - lo else 0) && forall i :: 0 <= i < |r| ==> r[i] == xs[lo + i]
  {
    var lo, hi := Bound(start, |xs|), Bound(stop, |xs|);
    if lo < hi then xs[lo..hi] else []
  }

  ghost predicate AllValid(data: map<string, Table>) {
    forall t :: t in data ==> TableValid(data[t])
  }

  /** Replacing one collection by a valid one keeps every collection valid. */
  lemma AllValidUpdate(data: map<string, Table>, t: string, tb: Table)
    requires AllValid(data) && TableValid(tb)
    ensures AllValid(data[t := tb])
  {
  }

  /** The outcome of `create`: the stored data, or the `TypeError` an unhashable id raises. */
  datatype Created = Stored(data: Data) | TypeError

  class InMemoryStore {
    /** Collection name ↦ collection. */
    var data: map<string, Table>

    ghost predicate Valid()
      reads this
    {
      AllValid(data)
    }

    /** `__init__`: no collections. */
    constructor()
      ensures data == map[] && Valid()
    {
      data := map[];
    }

    /** `list`: the data of the collection in insertion order, sliced `[skip:skip + limit]`. */
    method List(t: string, skip: int, limit: int) returns (r: seq<Data>)
      requires Valid()
      ensures t !in data ==> r == []
      ensures t in data ==> r == Slice(Contents(data[t]), skip, skip + limit)
    {
      if t !in data {
        return [];
      }
      var items := Contents(data[t]);
      r := Slice(items, skip, skip + limit);
    }

    /** `list(collection)` with Python's defaults `skip=0`, `limit=100`: the first hundred entries. */
    method ListFirstPage(t: string) returns (r: seq<Data>)
      requires Valid()
      ensures t !in data ==> r == []
      ensures t in data ==> var c := Contents(data[t]); r == c[..if |c| < 100 then |c| else 100]
    {
      r := List(t, 0, 100);
    }

    /** `get`: the data stored under `id`, or `None`. */
    method Get(t: string, id: Key) returns (r: Option<Data>)
      requires Valid()
      ensures r.Some? <==> t in data && id in data[t].ids
      ensures r == Lookup(TableOf(data, t), id)
      ensures r.Some? ==> "id" in r.value && Truthy(Dict(r.value))
    {
      if t !in data || id !in data[t].rows {
        return None;
      }
      r := Some(data[t].rows[id].data);
    }

    /**
     * `create`: the data with its `id` set (the supplied truthy one, else `newId`), stored under
     * that id; the collection is created first if need be, even when the id then proves unhashable.
     */
    method Create(t: string, entityData: Data, newId: string, now: int) returns (r: Created)
      requires Valid()
      modifies this
      ensures Valid()
      ensures var id := ChooseId(entityData, newId); var stored := entityData["id" := id];
        && (HashKey(id).None? ==> r == TypeError && data == old(data)[t := TableOf(old(data), t)])
        && (HashKey(id).Some? ==>
              r == Stored(stored)
              && data == old(data)[t := Put(TableOf(old(data), t), HashKey(id).value, Entity(stored, now, now))])
    {
      var id := if "id" in entityData && Truthy(entityData["id"]) then entityData["id"] else Str(newId);
      var stored := entityData["id" := id];
      if t !in data {
        AllValidUpdate(data, t, Empty);
        data := data[t := Empty];
      }
      var key := HashKey(id);
      if key.None? {
        return TypeError;
      }
      var entity := Entity(stored, now, now);
      PutValid(data[t], key.value, entity);
      AllValidUpdate(data, t, Put(data[t], key.value, entity));
      data := data[t := Put(data[t], key.value, entity)];
      r := Stored(stored);
    }

    /** `update`: merge `updates` into the stored data in place and restamp it, or `None`. */
    method Update(t: string, id: Key, updates: Data, now: int) returns (r: Option<Data>)
      requires Valid()
      modifies this
      ensures Valid()
      ensures r.Some? <==> t in old(data) && id in old(data)[t].rows
      ensures r.Some? ==> Truthy(Dict(r.value))
      ensures r.None? ==> data == old(data)
      ensures r.Some? ==> var e := old(data)[t].rows[id];
        && r.value == Merge(e.data, updates)
        && data == old(data)[t := Table(old(data)[t].ids, old(data)[t].rows[id := Entity(r.value, e.createdAt, now)])]
    {
      if t !in data || id !in data[t].rows {
        return None;
      }
      var table := data[t];
      var entity := table.rows[id];
      var merged := Merge(entity.data, updates);
      data := data[t := Table(table.ids, table.rows[id := Entity(merged, entity.createdAt, now)])];
      r := Some(merged);
    }

    /** `delete`: true exactly when the id was present, which it no longer is. */
    method Delete(t: string, id: Key) returns (deleted: bool)
      requires Valid()
      modifies this
      ensures Valid()
      ensures deleted <==> t in old(data) && id in old(data)[t].rows
      ensures !deleted ==> data == old(data)
      ensures deleted ==> data == old(data)[t := Remove(old(data)[t], id)]
    {
      if t !in data || id !in data[t].rows {
        return false;
      }
      RemoveValid(data[t], id);
      data := data[t := Remove(data[t], id)];
      deleted := true;
    }

    /** `delete_all`: empty the collection and answer how many entities it held. */
    method DeleteAll(t: string) returns (count: nat)
      requires Valid()
      modifies this
      ensures Valid()
      ensures t !in old(data) ==> count == 0 && data == old(data)
      ensures t in old(data) ==> count == |old(data)[t].ids| && data == old(data)[t := Empty]
    {
      if t !in data {
        return 0;
      }
      count := |data[t].ids|;
      data := data[t := Empty];
    }

    /** `count`: the number of entities, 0 for an unknown collection. */
    method Count(t: string) returns (n: nat)
      requires Valid()
      ensures n == |TableOf(data, t).rows|
      ensures t in data ==> n == |Contents(data[t])|
    {
      n := |TableOf(data, t).ids|;
      IdsCount(TableOf(data, t));
    }

    /** `exists`: the collection and the id are both present. */
    method Exists(t: string, id: Key) returns (b: bool)
      requires Valid()
      ensures b <==> Lookup(TableOf(data, t), id).Some?
      ensures b <==> t in data && id in data[t].ids
    {
      b := t in data && id in data[t].rows;
    }
  }

  // ---------------------------------------------------------------------------
  // Properties of the collections

  /** Storing keeps a collection valid, finds the new entity under its key and changes no other key. */
  lemma PutValid(tb: Table, k: Key, e: Entity)
    requires TableValid(tb) && "id" in e.data
    ensures TableValid(Put(tb, k, e))
    ensures Lookup(Put(tb, k, e), k) == Some(e.data)
    ensures forall j :: j != k ==> Lookup(Put(tb, k, e), j) == Lookup(tb, j)
  {
    var r := Put(tb, k, e);
    if k !in tb.rows {
      forall i, j | 0 <= i < j < |r.ids| ensures r.ids[i] != r.ids[j] {
        if j == |tb.ids| {
          assert r.ids[i] == tb.ids[i];
        }
      }
    }
  }

  /**
   * Storing under a present key replaces that entity where it stands; storing under a new key
   * appends it: the other entities keep their order.
   */
  lemma PutOrder(tb: Table, k: Key, e: Entity)
    requires TableValid(tb) && "id" in e.data
    ensures TableValid(Put(tb, k, e))
    ensures var before, after := Contents(tb), Contents(Put(tb, k, e));
      && (k in tb.rows ==>
            |after| == |before|
            && forall i :: 0 <= i < |before| ==> after[i] == (if tb.ids[i] == k then e.data else before[i]))
      && (k !in tb.rows ==> after == before + [e.data])
  {
    PutValid(tb, k, e);
    var before, after := Contents(tb), Contents(Put(tb, k, e));
    if k !in tb.rows {
      assert forall i :: 0 <= i < |before| ==> tb.ids[i] != k;
      assert after == before + [e.data];
    }
  }

  /** Within distinct ids, removing one takes out exactly its position. */
  lemma {:induction false} RemoveKeyAt(ids: seq<Key>, p: nat)
    requires Distinct(ids) && p < |ids|
    ensures RemoveKey(ids, ids[p]) == ids[..p] + ids[p + 1..]
    decreases |ids|
  {
    if p == 0 {
      NotIn(ids[1..], ids[0]);
      assert ids[..0] + ids[1..] == ids[1..];
    } else {
      var k, rest := ids[p], ids[1..];
      assert ids[0] != k;
      assert Distinct(rest) by {
        forall i, j | 0 <= i < j < |rest| ensures rest[i] != rest[j] {
          assert rest[i] == ids[i + 1] && rest[j] == ids[j + 1];
        }
      }
      assert rest[p - 1] == k;
      RemoveKeyAt(rest, p - 1);
      assert RemoveKey(ids, k) == [ids[0]] + RemoveKey(rest, k);
      assert rest[..p - 1] == ids[1..p] && rest[p..] == ids[p + 1..];
      assert ids[..p] == [ids[0]] + ids[1..p];
    }
  }

  /** Removing a key that is absent changes nothing. */
  lemma {:induction false} NotIn(ids: seq<Key>, k: Key)
    requires k !in ids
    ensures RemoveKey(ids, k) == ids
    decreases |ids|
  {
    if ids != [] {
      NotIn(ids[1..], k);
      assert ids == [ids[0]] + ids[1..];
    }
  }

  lemma DistinctSplice(ids: seq<Key>, p: nat)
    requires Distinct(ids) && p < |ids|
    ensures Distinct(ids[..p] + ids[p + 1..])
  {
    var r := ids[..p] + ids[p + 1..];
    forall i, j | 0 <= i < j < |r| ensures r[i] != r[j] {
      var a := if i < p then i else i + 1;
      var b := if j < p then j else j + 1;
      assert r[i] == ids[a] && r[j] == ids[b];
    }
  }

  /**
   * Deleting keeps a collection valid, finds nothing under the key afterwards, keeps every other
   * entity, and takes the key out of the insertion order without reordering the rest.
   */
  lemma RemoveValid(tb: Table, k: Key)
    requires TableValid(tb)
    ensures TableValid(Remove(tb, k))
    ensures Lookup(Remove(tb, k), k).None?
    ensures forall j :: j != k ==> Lookup(Remove(tb, k), j) == Lookup(tb, j)
    ensures k in tb.rows ==> exists p :: 0 <= p < |tb.ids| && tb.ids[p] == k && Remove(tb, k).ids == tb.ids[..p] + tb.ids[p + 1..]
    ensures k !in tb.rows ==> Remove(tb, k).ids == tb.ids
  {
    if k in tb.rows {
      var p :| 0 <= p < |tb.ids| && tb.ids[p] == k;
      RemoveKeyAt(tb.ids, p);
      DistinctSplice(tb.ids, p);
    } else {
      NotIn(tb.ids, k);
    }
  }

  /** A valid collection holds as many entities as it lists ids. */
  lemma IdsCount(tb: Table)
    requires TableValid(tb)
    ensures |tb.rows| == |tb.ids|
  {
    IdsCard(tb.ids);
    assert tb.rows.Keys == set k | k in tb.ids;
  }

  lemma {:induction false} IdsCard(ids: seq<Key>)
    requires Distinct(ids)
    ensures |set k | k in ids| == |ids|
    decreases |ids|
  {
    if ids != [] {
      var n := |ids| - 1;
      IdsCard(ids[..n]);
      assert (set k | k in ids) == (set k | k in ids[..n]) + {ids[n]};
      assert ids[n] !in ids[..n];
    }
  }

  /** The id `create` stores: the supplied one when truthy, otherwise the generated one. */
  lemma ChosenId(d: Data, newId: string)
    ensures "id" in d && Truthy(d["id"]) ==> ChooseId(d, newId) == d["id"]
    ensures !("id" in d && Truthy(d["id"])) ==> ChooseId(d, newId) == Str(newId)
    ensures newId != "" ==> Truthy(ChooseId(d, newId))
  {
  }

  /**
   * After a successful `create` (or after any), reading the id back returns the stored data with
   * that id; `True` and `1` name the same entity.
   */
  lemma CreateThenGet(tb: Table, d: Data, newId: string, now: int)
    requires TableValid(tb) && HashKey(ChooseId(d, newId)).Some?
    ensures var id := ChooseId(d, newId); var stored := d["id" := id];
      Lookup(Put(tb, HashKey(id).value, Entity(stored, now, now)), HashKey(id).value) == Some(stored)
      && stored["id"] == id && (forall x :: x in d && x != "id" ==> stored[x] == d[x])
  {
    var id := ChooseId(d, newId);
    PutValid(tb, HashKey(id).value, Entity(d["id" := id], now, now));
  }

  /** Pages of a list: with `skip` and `limit` not negative, `min(limit, max(0, n - skip))` items from `skip` on. */
  lemma PageOf<T>(xs: seq<T>, skip: int, limit: int)
    requires skip >= 0 && limit >= 0
    ensures var r := Slice(xs, skip, skip + limit);
      && |r| == (if skip >= |xs| then 0 else if limit < |xs| - skip then limit else |xs| - skip)
      && forall i :: 0 <= i < |r| ==> r[i] == xs[skip + i]
  {
  }

  /** Consecutive pages do not overlap and together are the page spanning both. */
  lemma PagesJoin<T>(xs: seq<T>, skip: int, a: int, b: int)
    requires skip >= 0 && a >= 0 && b >= 0
    ensures Slice(xs, skip, skip + a) + Slice(xs, skip + a, skip + a + b) == Slice(xs, skip, skip + a + b)
  {
    var lo, mid, hi := Bound(skip, |xs|), Bound(skip + a, |xs|), Bound(skip + a + b, |xs|);
    if lo < mid && mid < hi {
      assert xs[lo..hi] == xs[lo..mid] + xs[mid..hi];
    }
  }
}
