/**
 * The `LinkedHashMap<String, item>` a factory group keeps, as a value: the
 * keys in insertion order and the map itself.
 */
module ItemsMaps {
  import opened Results
  import opened Descriptors

  datatype ItemsMap = ItemsMap(keys: seq<string>, entries: map<string, Descriptor>)
  {
    /** The keys are distinct and are exactly the keys of the map. */
    ghost predicate Valid()
    {
      && (forall i, j :: 0 <= i < j < |keys| ==> keys[i] != keys[j])
      && (forall k :: k in entries <==> k in keys)
    }

    /** `values()`: the stored items in insertion order. */
    function Values(): (vs: seq<Descriptor>)
      requires Valid()
      ensures |vs| == |keys|
      ensures forall i :: 0 <= i < |keys| ==> vs[i] == entries[keys[i]]
    {
      seq(|keys|, i requires 0 <= i < |keys| => entries[keys[i]])
    }

    /** `get(id)`: the item stored under `id`, or null. */
    function Get(id: string): Option<Descriptor>
    {
      if id in entries then Some(entries[id]) else None
    }

    /** `put(d.id, d)` for an id not yet present: one more entry, at the end. */
    function Put(d: Descriptor): (m: ItemsMap)
      requires d.id !in entries
      ensures Valid() ==> m.Valid() && m.Values() == Values() + [d]
      ensures KeyedById(this) ==> KeyedById(m)
      ensures m.keys == keys + [d.id] && m.entries == entries[d.id := d]
    {
      var m := ItemsMap(keys + [d.id], entries[d.id := d]);
      assert Valid() ==> m.Values() == Values() + [d] by {
        if Valid() {
          assert forall i :: 0 <= i < |keys| ==> m.Values()[i] == Values()[i];
        }
      }
      m
    }
  }

  const Empty: ItemsMap := ItemsMap([], map[])

  /** Every item is stored under its own id; ids are therefore unique. */
  ghost predicate KeyedById(m: ItemsMap)
  {
    forall k :: k in m.entries ==> m.entries[k].id == k
  }

  /** The first item of `items` with the given id, if any. */
  function FirstWithId(items: seq<Descriptor>, id: string): (r: Option<Descriptor>)
    ensures r.Some? ==> r.value in items && r.value.id == id
    ensures r.None? <==> forall i :: 0 <= i < |items| ==> items[i].id != id
  {
    if items == [] then None
    else if items[0].id == id then Some(items[0])
    else FirstWithId(items[1..], id)
  }

  /** The first item with an id is the one at the first index that carries it. */
  lemma {:induction false} FirstWithIdAt(items: seq<Descriptor>, id: string, j: nat)
    requires j < |items| && items[j].id == id
    requires forall i :: 0 <= i < j ==> items[i].id != id
    ensures FirstWithId(items, id) == Some(items[j])
    decreases j
  {
    if j > 0 {
      FirstWithIdAt(items[1..], id, j - 1);
    }
  }

  /**
   * Because every key is the id of its item, scanning the values in insertion
   * order for the first equal id finds exactly what `get(id)` returns.
   */
  lemma FirstWithIdIsGet(m: ItemsMap, id: string)
    requires m.Valid() && KeyedById(m)
    ensures FirstWithId(m.Values(), id) == m.Get(id)
  {
    var vs := m.Values();
    if id in m.entries {
      var j :| 0 <= j < |m.keys| && m.keys[j] == id;
      FirstWithIdAt(vs, id, j);
    }
  }

  /**
   * FactoryClass.add on the map: insert unless the id is already taken. A
   * taken id keeps the item stored first; a free one now holds `d`; no other
   * id changes, and the map stays well formed.
   */
  function PutIfAbsent(m: ItemsMap, d: Descriptor): (r: ItemsMap)
    ensures m.Valid() && KeyedById(m) ==> r.Valid() && KeyedById(r)
    ensures r.Get(d.id) == if d.id in m.entries then m.Get(d.id) else Some(d)
    ensures forall id :: id != d.id ==> r.Get(id) == m.Get(id)
  {
    if d.id in m.entries then m else m.Put(d)
  }

  /**
   * A sequence of FactoryClass.add calls, in order: an id that was present
   * keeps its item whatever is added after it.
   */
  function AddAll(m: ItemsMap, ds: seq<Descriptor>): (r: ItemsMap)
    ensures m.Valid() && KeyedById(m) ==> r.Valid() && KeyedById(r)
    ensures forall id :: id in m.entries ==> r.Get(id) == m.Get(id)
    decreases |ds|
  {
    if ds == [] then m else AddAll(PutIfAbsent(m, ds[0]), ds[1..])
  }

  /**
   * After any sequence of adds the ids stay unique, and every id maps to the
   * item that was stored first with it: earlier items win, later ones with
   * the same id are dropped.
   */
  lemma {:induction false} AddAllKeepsFirst(m: ItemsMap, ds: seq<Descriptor>)
    requires m.Valid() && KeyedById(m)
    ensures AddAll(m, ds).Valid() && KeyedById(AddAll(m, ds))
    ensures forall id ::
              AddAll(m, ds).Get(id) == (if id in m.entries then m.Get(id) else FirstWithId(ds, id))
    decreases |ds|
  {
    if ds != [] {
      var m' := PutIfAbsent(m, ds[0]);
      AddAllKeepsFirst(m', ds[1..]);
      forall id ensures AddAll(m, ds).Get(id) ==
        (if id in m.entries then m.Get(id) else FirstWithId(ds, id))
      {
        if id !in m.entries && id == ds[0].id {
          assert m'.Get(id) == Some(ds[0]);
        }
      }
    }
  }
}
