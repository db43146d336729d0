/** The manager queue file of `core/messages.py`.  The per-recipient lists are the
    projections of one list of items, each naming its recipient. */
module ManagerQueue {
  import opened Common

  const MANAGER_QUEUE_MAX_ITEMS: nat := 1_000

  /** What is to be delivered: the text of the direct continuation and the text of
      the ordinary delivery, both fixed when the message is sent. */
  datatype Message = Message(to: string, lineageContext: string, ingressContext: string)

  /** A queued record; `lease` is present exactly on a prepared intent. */
  datatype Item = Item(id: nat, message: Message, lease: Option<nat>)

  datatype AppendResult =
    | Appended(queue: seq<Item>)
    | AlreadyThere
    | Conflict
    | AtCapacity

  function ItemIndex(items: seq<Item>, id: nat): (k: nat)
    ensures k <= |items|
    ensures k < |items| ==> items[k].id == id
    ensures forall j :: 0 <= j < k ==> items[j].id != id
  {
    if items == [] then 0
    else if items[0].id == id then 0
    else 1 + ItemIndex(items[1..], id)
  }

  function Append(queue: seq<Item>, item: Item): AppendResult {
    var k := ItemIndex(queue, item.id);
    if k < |queue| then if queue[k] == item then AlreadyThere else Conflict
    else if |queue| >= MANAGER_QUEUE_MAX_ITEMS then AtCapacity
    else Appended(queue + [item])
  }

  function Without(queue: seq<Item>, ids: set<nat>): seq<Item> {
    if queue == [] then []
    else if queue[0].id in ids then Without(queue[1..], ids)
    else [queue[0]] + Without(queue[1..], ids)
  }

  ghost predicate DistinctIds(queue: seq<Item>) {
    forall i, j :: 0 <= i < j < |queue| ==> queue[i].id != queue[j].id
  }

  lemma {:induction false} WithoutKeepsTheRest(queue: seq<Item>, ids: set<nat>)
    ensures forall x :: x in Without(queue, ids) <==> x in queue && x.id !in ids
    ensures |Without(queue, ids)| <= |queue|
    ensures DistinctIds(queue) ==> DistinctIds(Without(queue, ids))
  {
    if queue != [] {
      var rest := queue[1..];
      WithoutKeepsTheRest(rest, ids);
      assert forall x :: x in queue <==> x == queue[0] || x in rest;
      if DistinctIds(queue) {
        assert forall i :: 0 <= i < |rest| ==> rest[i] == queue[i + 1];
        var kept := Without(rest, ids);
        forall i | 0 <= i < |kept| ensures kept[i].id != queue[0].id {
          assert kept[i] in rest;
        }
      }
    }
  }

  /** One item is ahead of another. */
  ghost predicate Ahead(queue: seq<Item>, x: Item, y: Item) {
    exists i, j :: 0 <= i < j < |queue| && queue[i] == x && queue[j] == y
  }

  /** What stays keeps its order. */
  lemma {:induction false} WithoutKeepsOrder(queue: seq<Item>, ids: set<nat>, x: Item, y: Item)
    requires Ahead(Without(queue, ids), x, y)
    ensures Ahead(queue, x, y)
  {
    var all, rest := Without(queue, ids), queue[1..];
    var kept := Without(rest, ids);
    var i, j :| 0 <= i < j < |all| && all[i] == x && all[j] == y;
    assert forall k :: 0 <= k < |rest| ==> rest[k] == queue[k + 1];
    if queue[0].id in ids {
      WithoutKeepsOrder(rest, ids, x, y);
    } else if i > 0 {
      assert kept[i - 1] == x && kept[j - 1] == y;
      WithoutKeepsOrder(rest, ids, x, y);
    } else {
      WithoutKeepsTheRest(rest, ids);
      assert kept[j - 1] == y && kept[j - 1] in kept;
      var k :| 0 <= k < |rest| && rest[k] == y;
      assert queue[k + 1] == y;
    }
  }

  lemma {:induction false} WithoutSnoc(queue: seq<Item>, ids: set<nat>, last: Item)
    ensures Without(queue + [last], ids) == Without(queue, ids) + (if last.id in ids then [] else [last])
  {
    if queue == [] {
      assert [] + [last] == [last] && [last][1..] == [];
    } else {
      assert (queue + [last])[1..] == queue[1..] + [last];
      WithoutSnoc(queue[1..], ids, last);
    }
  }

  /** The queue file; every method is one locked read-modify-write. */
  class QueueFile {
    var items: seq<Item>
    var overflowCount: nat

    /** No identity is journalled twice and the live-entry limit is respected. */
    ghost predicate Valid()
      reads this
    {
      DistinctIds(items) && |items| <= MANAGER_QUEUE_MAX_ITEMS
    }

    constructor ()
      ensures Valid() && items == [] && overflowCount == 0
    {
      items, overflowCount := [], 0;
    }

    /** Raises on a reused identity and at the limit; only the latter is counted. */
    method AppendItem(item: Item) returns (result: AppendResult)
      requires Valid()
      modifies this
      ensures Valid()
      ensures result == Append(old(items), item)
      ensures items == if result.Appended? then result.queue else old(items)
      ensures overflowCount == old(overflowCount) + (if result == AtCapacity then 1 else 0)
      ensures result.AlreadyThere? <==> item in old(items)
      ensures result.Conflict? <==> exists x :: x in old(items) && x.id == item.id && x != item
      ensures result.Appended? <==> (forall x :: x in old(items) ==> x.id != item.id) && |old(items)| < 1_000
      ensures items == old(items) + (if result.Appended? then [item] else [])
    {
      var i := 0;
      while i < |items|
        invariant 0 <= i <= |items|
        invariant items == old(items) && overflowCount == old(overflowCount)
        invariant forall j :: 0 <= j < i ==> items[j].id != item.id
      {
        if items[i].id == item.id {
          result := if items[i] == item then AlreadyThere else Conflict;
          return;
        }
        i := i + 1;
      }
      if |items| >= MANAGER_QUEUE_MAX_ITEMS {
        overflowCount := overflowCount + 1;
        result := AtCapacity;
        return;
      }
      items := items + [item];
      result := Appended(items);
    }

    method RemoveIds(ids: set<nat>)
      requires Valid()
      modifies this`items
      ensures Valid() && items == Without(old(items), ids)
      ensures forall x :: x in items <==> x in old(items) && x.id !in ids
      ensures forall x, y :: Ahead(items, x, y) ==> Ahead(old(items), x, y)
    {
      forall x, y | Ahead(Without(items, ids), x, y) ensures Ahead(items, x, y) {
        WithoutKeepsOrder(items, ids, x, y);
      }
      WithoutKeepsTheRest(items, ids);
      var remaining, i := [], 0;
      while i < |items|
        invariant 0 <= i <= |items| && items == old(items)
        invariant remaining == Without(items[..i], ids)
      {
        WithoutSnoc(items[..i], ids, items[i]);
        assert items[..i] + [items[i]] == items[..i + 1];
        if items[i].id !in ids {
          remaining := remaining + [items[i]];
        }
        i := i + 1;
      }
      assert items[..i] == items;
      items := remaining;
    }
  }
}
