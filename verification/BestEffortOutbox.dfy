/** `BestEffortOutbox` over shared, mutable queue items: `_coalesced` aliases items
    that are also in `_pending`, and replacing a call goes through that alias. */
module BestEffortOutboxClass {
  import opened OutboxModel

  class QueueItem {
    var call: nat
    const key: string
    const coalesce: bool

    constructor (call: nat, key: string, coalesce: bool)
      ensures Value() == Item(call, key, coalesce)
    {
      this.call, this.key, this.coalesce := call, key, coalesce;
    }

    function Value(): Item
      reads this
    {
      Item(call, key, coalesce)
    }
  }

  class BestEffortOutbox {
    var pending: seq<QueueItem>
    var coalesced: map<string, QueueItem>
    var runningKeys: set<string>
    var active: nat
    var closed: bool
    const maxPending: nat

    ghost predicate Valid()
      reads this, pending
    {
      && (forall i, j :: 0 <= i < j < |pending| ==> pending[i] != pending[j])
      && (forall i :: 0 <= i < |pending| && pending[i].coalesce && pending[i].key != "" ==>
            pending[i].key in coalesced && coalesced[pending[i].key] == pending[i])
      && (forall lane :: lane in coalesced ==>
            coalesced[lane] in pending && coalesced[lane].coalesce && coalesced[lane].key == lane && lane != "")
    }

    ghost function Items(): (items: seq<Item>)
      reads this, pending
      ensures |items| == |pending|
      ensures forall i :: 0 <= i < |items| ==> items[i] == pending[i].Value()
    {
      seq(|pending|, i requires 0 <= i < |pending| reads this, pending => pending[i].Value())
    }

    constructor (max: int)
      ensures Valid() && Items() == Empty(max).pending && maxPending == Empty(max).maxPending
      ensures runningKeys == {} && active == 0 && !closed
    {
      pending, coalesced, runningKeys, active, closed := [], map[], {}, 0, false;
      maxPending := if max < 1 then 1 else max;
    }

    /** In a valid outbox the alias of a lane is where the model finds it. */
    lemma AliasIsFound(lane: string, i: nat)
      requires Valid() && lane in coalesced && i < |pending| && pending[i] == coalesced[lane]
      ensures CoalescedAt(Items(), lane) == i
    {
      var at := CoalescedAt(Items(), lane);
      assert Coalesced(Items()[i]) && Items()[i].key == lane;
      assert at < |pending|;
      assert pending[at] == coalesced[lane];
    }

    /** A newer coalesced call replaces the queued one of its lane, through the alias. */
    method Replace(key: string, call: nat)
      requires Valid() && key in coalesced
      modifies pending
      ensures Valid()
      ensures CoalescedAt(old(Items()), key) < |old(Items())|
      ensures var at := CoalescedAt(old(Items()), key); Items() == old(Items())[at := old(Items())[at].(call := call)]
    {
      var existing := coalesced[key];
      ghost var i :| 0 <= i < |pending| && pending[i] == existing;
      AliasIsFound(key, i);
      existing.call := call;
    }

    /** A new item joins the queue, and its lane's alias where it coalesces. */
    method Join(call: nat, key: string, coalesce: bool)
      requires Valid() && !(coalesce && key != "" && key in coalesced)
      modifies this`pending, this`coalesced
      ensures Valid() && Items() == old(Items()) + [Item(call, key, coalesce)]
    {
      var item := new QueueItem(call, key, coalesce);
      pending := pending + [item];
      if coalesce && key != "" {
        coalesced := coalesced[key := item];
      }
    }

    method Submit(call: nat, key: string, coalesce: bool) returns (accepted: bool)
      requires Valid()
      modifies this`pending, this`coalesced, pending
      ensures Valid()
      ensures old(closed) ==> !accepted && Items() == old(Items())
      ensures !old(closed) ==>
        accepted == Submitted(old(Items()), Item(call, key, coalesce), maxPending).1
      ensures !old(closed) ==>
        Items() == Submitted(old(Items()), Item(call, key, coalesce), maxPending).0
      ensures !old(closed) ==> Submits(old(Items()), Items(), accepted, Item(call, key, coalesce), maxPending)
    {
      SubmittingSubmits(Items(), Item(call, key, coalesce), maxPending);
      if closed {
        return false;
      }
      if coalesce && key != "" && key in coalesced {
        Replace(key, call);
        return true;
      }
      assert coalesce && key != "" ==> CoalescedAt(Items(), key) == |pending|;
      if |pending| >= maxPending {
        return false;
      }
      Join(call, key, coalesce);
      return true;
    }

    /** `deque.remove`: drops the first item equal by value. */
    method RemoveEqual(item: QueueItem) returns (ghost at: nat)
      requires item in pending
      modifies this`pending
      ensures at < |old(pending)| && old(pending)[at].Value() == item.Value()
      ensures forall j :: 0 <= j < at ==> old(pending)[j].Value() != item.Value()
      ensures pending == old(pending)[..at] + old(pending)[at + 1..]
    {
      var i := 0;
      while pending[i].Value() != item.Value()
        invariant 0 <= i < |pending|
        invariant pending == old(pending)
        invariant item in pending[i..]
        invariant forall j :: 0 <= j < i ==> pending[j].Value() != item.Value()
        decreases |pending| - i
      {
        i := i + 1;
      }
      at := i;
      pending := pending[..i] + pending[i + 1..];
    }

    /** Scans for the first item whose lane is free. */
    method FindRunnable() returns (i: nat)
      ensures i == FirstRunnable(Items(), runningKeys)
    {
      i := 0;
      while i < |pending| && pending[i].key != "" && pending[i].key in runningKeys
        invariant 0 <= i <= |pending|
        invariant forall j :: 0 <= j < i ==> Busy(Items()[j], runningKeys)
      {
        i := i + 1;
      }
    }

    /** Takes the selected item out of the queue, and its alias out of the map. */
    method TakeOut(ghost i: nat, item: QueueItem)
      requires Valid() && i == FirstRunnable(Items(), runningKeys) < |pending| && item == pending[i]
      modifies this`pending, this`coalesced
      ensures Valid()
      ensures Items() == RemoveFirstEqual(old(Items()), old(Items())[i])
    {
      ghost var items := Items();
      RemovesTheSelectedItem(items, runningKeys);
      ghost var at := RemoveEqual(item);
      assert at == i by {
        assert items[at] == items[i];
      }
      assert Items() == Without(items, i);
      if item.coalesce && item.key != "" {
        coalesced := coalesced - {item.key};
      }
      Remaining(i);
    }

    method NextItem() returns (next: QueueItem?)
      requires Valid()
      modifies this`pending, this`coalesced, this`runningKeys, this`active
      ensures Valid()
      ensures next == null <==> FirstRunnable(old(Items()), old(runningKeys)) == |old(pending)|
      ensures next == null ==> Items() == old(Items()) && runningKeys == old(runningKeys) && active == old(active)
      ensures next != null ==>
        && var i := FirstRunnable(old(Items()), old(runningKeys));
        && next == old(pending)[i]
        && Items() == RemoveFirstEqual(old(Items()), old(Items())[i])
        && runningKeys == old(runningKeys) + (if next.key != "" then {next.key} else {})
        && active == old(active) + 1
      ensures next != null ==> TakesFirstFree(old(Items()), Items(), old(runningKeys), next.Value())
    {
      if FirstRunnable(Items(), runningKeys) < |Items()| {
        RemovalTakes(Items(), runningKeys);
      }
      var i := FindRunnable();
      if i == |pending| {
        return null;
      }
      var item := pending[i];
      TakeOut(i, item);
      Occupy(item);
      return item;
    }

    /** The item's lane is busy and one more call is active. */
    method Occupy(item: QueueItem)
      modifies this`runningKeys, this`active
      ensures runningKeys == old(runningKeys) + (if item.key != "" then {item.key} else {})
      ensures active == old(active) + 1
    {
      if item.key != "" {
        runningKeys := runningKeys + {item.key};
      }
      active := active + 1;
    }

    twostate lemma Remaining(i: nat)
      requires old(Valid()) && i < |old(pending)|
      requires pending == old(pending)[..i] + old(pending)[i + 1..]
      requires coalesced == if old(pending)[i].coalesce && old(pending)[i].key != ""
                            then old(coalesced) - {old(pending)[i].key} else old(coalesced)
      ensures Valid()
    {
      forall lane | lane in coalesced ensures coalesced[lane] in pending {
        var k :| 0 <= k < |old(pending)| && old(pending)[k] == coalesced[lane];
        if k < i {
          assert pending[k] == coalesced[lane];
        } else {
          assert k != i;
          assert pending[k - 1] == coalesced[lane];
        }
      }
    }

    method Finish(item: QueueItem)
      requires active > 0
      modifies this`runningKeys, this`active
      ensures active == old(active) - 1 && runningKeys == old(runningKeys) - {item.key}
    {
      active := active - 1;
      runningKeys := runningKeys - {item.key};
    }

    method Close()
      modifies this`closed
      ensures closed
    {
      closed := true;
    }
  }
}
