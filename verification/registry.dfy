/** The registry of per-key resources and the counting semaphore it hands out. */
module Registry {
  import opened Domain

  /** A resource, by the identity of the object, and when it was last asked for. */
  datatype Slot = Slot(obj: nat, lastUsed: Time)

  type Items<K> = map<K, Slot>

  /** `made` is the object `create` would build. */
  function Got<K(==)>(items: Items<K>, key: K, made: nat, now: Time): (Items<K>, nat) {
    var obj := if key in items then items[key].obj else made;
    (items[key := Slot(obj, now)], obj)
  }

  predicate Idle(s: Slot, now: Time, idleTtl: Time) {
    s.lastUsed < now - idleTtl
  }

  function Swept<K(==)>(items: Items<K>, now: Time, idleTtl: Time): Items<K> {
    map k | k in items && !Idle(items[k], now, idleTtl) :: items[k]
  }

  class Semaphore {
    const limit: nat
    var taken: nat

    ghost predicate Valid()
      reads this
    {
      taken <= limit
    }

    constructor (n: nat)
      ensures Valid() && limit == n && taken == 0
    {
      limit, taken := n, 0;
    }

    method TryAcquire() returns (ok: bool)
      requires Valid()
      modifies this`taken
      ensures Valid() && ok == (old(taken) < limit) && taken == old(taken) + (if ok then 1 else 0)
    {
      ok := taken < limit;
      if ok { taken := taken + 1; }
    }

    method Release()
      requires Valid() && 0 < taken
      modifies this`taken
      ensures Valid() && taken == old(taken) - 1
    {
      taken := taken - 1;
    }
  }

  class Registry {
    var items: Items<string>
    var created: nat
    const idleTtl: Time

    ghost predicate Valid()
      reads this
    {
      && (forall k :: k in items ==> items[k].obj < created)
      && (forall k, l :: k in items && l in items && items[k].obj == items[l].obj ==> k == l)
    }

    constructor (idleTtl: Time)
      ensures Valid() && this.idleTtl == idleTtl && items == map[]
    {
      this.idleTtl := idleTtl;
      items, created := map[], 0;
    }

    /** Keys never share an object, and a key keeps its object while it is listed. */
    method Get(key: string, now: Time) returns (obj: nat)
      requires Valid()
      modifies this
      ensures Valid() && (items, obj) == Got(old(items), key, old(created), now)
      ensures key in old(items) ==> obj == old(items)[key].obj
      ensures key !in old(items) ==> forall k :: k in old(items) ==> old(items)[k].obj != obj
    {
      if key in items {
        obj := items[key].obj;
      } else {
        obj := created;
        created := created + 1;
      }
      items := items[key := Slot(obj, now)];
    }

    /** The next lookup of the key makes a new object; every other key keeps its own. */
    method Remove(key: string)
      requires Valid()
      modifies this
      ensures Valid() && items == old(items) - {key} && created == old(created)
      ensures forall now: Time :: key in old(items) ==> Got(items, key, created, now).1 != old(items)[key].obj
      ensures forall k, now: Time :: k in old(items) && k != key ==> Got(items, k, created, now).1 == old(items)[k].obj
    {
      items := items - {key};
    }

    method Sweep(now: Time) returns (n: nat)
      requires Valid()
      modifies this
      ensures Valid() && items == Swept(old(items), now, idleTtl) && created == old(created)
      ensures n == |old(items)| - |items|
      ensures forall k :: k in items <==> k in old(items) && now - idleTtl <= old(items)[k].lastUsed
      ensures forall k :: k in items ==> items[k] == old(items)[k]
    {
      var cutoff := now - idleTtl;
      n := 0;
      var todo := items.Keys;
      while todo != {}
        invariant items.Keys <= old(items).Keys && todo <= items.Keys && n + |items| == |old(items)|
        invariant forall k :: k in items ==> items[k] == old(items)[k]
        invariant forall k :: k in old(items) && k !in todo ==> (k in items <==> !Idle(old(items)[k], now, idleTtl))
        invariant created == old(created)
        decreases todo
      {
        var k :| k in todo;
        if items[k].lastUsed < cutoff {
          assert (items - {k}).Keys == items.Keys - {k};
          items := items - {k};
          n := n + 1;
        }
        todo := todo - {k};
      }
    }
  }
}
