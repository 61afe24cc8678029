/** Selection by a key with the id as tie-break: the `ORDER BY key, id LIMIT n` shared
    by the recovery queries and the retry schedule. */
module Keyset {
  import Arith

  datatype Item = Item(key: int, id: nat)

  predicate Less(a: Item, b: Item) {
    a.key < b.key || (a.key == b.key && a.id < b.id)
  }

  predicate Sorted(items: seq<Item>) {
    forall i, j :: 0 <= i < j < |items| ==> Less(items[i], items[j])
  }

  method Least(items: set<Item>) returns (least: Item)
    requires items != {}
    ensures least in items && forall it :: it in items && it != least ==> Less(least, it)
  {
    var first :| first in items;
    least := first;
    var rest := items - {first};
    while rest != {}
      invariant rest <= items && least in items && least !in rest
      invariant forall it :: it in items && it !in rest && it != least ==> Less(least, it)
      decreases rest
    {
      var it :| it in rest;
      if Less(it, least) { least := it; }
      rest := rest - {it};
    }
  }

  /** The least items in order, and none left out unless the limit is used up. */
  ghost predicate IsFirst(all: set<Item>, limit: nat, items: seq<Item>) {
    && Sorted(items) && |items| <= limit
    && (forall it :: it in items ==> it in all)
    && (forall it :: it in all && it !in items ==>
          |items| == limit && forall i :: 0 <= i < |items| ==> Less(items[i], it))
  }

  method First(all: set<Item>, limit: nat) returns (items: seq<Item>)
    ensures IsFirst(all, limit, items)
    ensures forall i, j :: 0 <= i < j < |items| ==>
      items[i].key < items[j].key || (items[i].key == items[j].key && items[i].id < items[j].id)
  {
    items := [];
    var left := all;
    while |items| < limit && left != {}
      invariant Sorted(items) && |items| <= limit
      invariant forall it :: it in items || it in left <==> it in all
      invariant forall it, i :: 0 <= i < |items| && it in left ==> Less(items[i], it)
      decreases left
    {
      var it := Least(left);
      items := items + [it];
      left := left - {it};
    }
  }

  /** The items that come before one of them. */
  function Sooner(all: set<Item>, it: Item): set<Item> {
    set x | x in all && Less(x, it)
  }

  function Elements(items: seq<Item>): set<Item> {
    set x | x in items
  }

  lemma {:induction false} CardOfSorted(items: seq<Item>)
    requires Sorted(items)
    ensures |Elements(items)| == |items|
  {
    if items != [] {
      var n := |items| - 1;
      CardOfSorted(items[..n]);
      assert Elements(items) == Elements(items[..n]) + {items[n]};
      assert items[n] !in items[..n];
    }
  }

  /** An item is selected exactly when fewer than the limit come before it. */
  lemma SelectedExactly(all: set<Item>, limit: nat, items: seq<Item>, it: Item)
    requires IsFirst(all, limit, items) && it in all
    ensures it in items <==> |Sooner(all, it)| < limit
  {
    if it in items {
      var i :| 0 <= i < |items| && items[i] == it;
      CardOfSorted(items[..i]);
      forall x | x in Sooner(all, it) ensures x in items[..i] {
        assert x in items;
        var j :| 0 <= j < |items| && items[j] == x;
        assert j < i;
      }
      Arith.SubsetCard(Sooner(all, it), Elements(items[..i]));
    } else {
      CardOfSorted(items);
      Arith.SubsetCard(Elements(items), Sooner(all, it));
    }
  }
}
