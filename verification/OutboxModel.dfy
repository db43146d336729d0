/** The best-effort outbox of `core/background.py`: a bounded queue drained by any
    number of workers, with one running call per lane and optional coalescing. */
module OutboxModel {

  /** `call` stands for the function with its arguments; equal calls compare equal. */
  datatype Item = Item(call: nat, key: string, coalesce: bool)

  predicate Coalesced(item: Item) {
    item.coalesce && item.key != ""
  }

  predicate Busy(item: Item, running: set<string>) {
    item.key != "" && item.key in running
  }

  /** Position of the first item whose lane is free; the length when there is none. */
  function FirstRunnable(pending: seq<Item>, running: set<string>): (i: nat)
    ensures i <= |pending|
    ensures i < |pending| ==> !Busy(pending[i], running)
    ensures forall j :: 0 <= j < i ==> Busy(pending[j], running)
  {
    if pending == [] then 0
    else if !Busy(pending[0], running) then 0
    else 1 + FirstRunnable(pending[1..], running)
  }

  /** Position of the item a coalesced call of this lane replaces. */
  function CoalescedAt(pending: seq<Item>, lane: string): (i: nat)
    ensures i <= |pending|
    ensures i < |pending| ==> Coalesced(pending[i]) && pending[i].key == lane
    ensures forall j :: 0 <= j < i ==> !(Coalesced(pending[j]) && pending[j].key == lane)
  {
    if pending == [] then 0
    else if Coalesced(pending[0]) && pending[0].key == lane then 0
    else 1 + CoalescedAt(pending[1..], lane)
  }

  function Submitted(pending: seq<Item>, item: Item, maxPending: nat): (seq<Item>, bool) {
    var at := CoalescedAt(pending, item.key);
    if Coalesced(item) && at < |pending| then (pending[at := pending[at].(call := item.call)], true)
    else if |pending| >= maxPending then (pending, false)
    else (pending + [item], true)
  }

  function Without(pending: seq<Item>, i: nat): seq<Item>
    requires i < |pending|
  {
    pending[..i] + pending[i + 1..]
  }

  /** `deque.remove`: the first item equal to the given one goes. */
  function RemoveFirstEqual(pending: seq<Item>, item: Item): seq<Item> {
    if pending == [] then []
    else if pending[0] == item then pending[1..]
    else [pending[0]] + RemoveFirstEqual(pending[1..], item)
  }

  /** Removing the chosen item by value removes the chosen item: an equal item
      further ahead would have been runnable too. */
  lemma {:induction false} RemovesTheSelectedItem(pending: seq<Item>, running: set<string>)
    requires FirstRunnable(pending, running) < |pending|
    ensures var i := FirstRunnable(pending, running);
            RemoveFirstEqual(pending, pending[i]) == Without(pending, i)
  {
    var i := FirstRunnable(pending, running);
    if i == 0 {
      assert Without(pending, 0) == pending[1..];
    } else {
      RemovesTheSelectedItem(pending[1..], running);
      assert Without(pending, i) == [pending[0]] + Without(pending[1..], i - 1);
    }
  }

  /** Some item can start exactly when not every queued lane is busy. */
  lemma StartsUnlessAllBusy(pending: seq<Item>, running: set<string>)
    ensures FirstRunnable(pending, running) < |pending| <==> exists item :: item in pending && !Busy(item, running)
  {
    if exists item :: item in pending && !Busy(item, running) {
      var item :| item in pending && !Busy(item, running);
      var j :| 0 <= j < |pending| && pending[j] == item;
    }
  }

  // --------------------------------------------------------------------- worlds

  /** The outbox, what each worker runs, and the history of accepted and started
      calls; `latest` is the newest accepted coalesced call of each lane. */
  datatype World = World(
    pending: seq<Item>,
    runningKeys: set<string>,
    active: nat,
    closed: bool,
    maxPending: nat,
    hands: map<nat, Item>,
    accepted: seq<Item>,
    started: seq<Item>,
    latest: map<string, nat>)

  datatype Event =
    | Submit(item: Item)
    | Take(worker: nat)
    | Finish(worker: nat)
    | Close

  function Empty(maxPending: int): World {
    World([], {}, 0, false, if maxPending < 1 then 1 else maxPending, map[], [], [], map[])
  }

  predicate Enabled(w: World, e: Event) {
    match e
    case Submit(_) => true
    case Take(worker) => worker !in w.hands && FirstRunnable(w.pending, w.runningKeys) < |w.pending|
    case Finish(worker) => worker in w.hands
    case Close => true
  }

  function Accept(w: World, item: Item): World {
    var r := Submitted(w.pending, item, w.maxPending);
    if w.closed || !r.1 then w
    else if Coalesced(item) then w.(pending := r.0, latest := w.latest[item.key := item.call])
    else w.(pending := r.0, accepted := w.accepted + [item])
  }

  function Start(w: World, worker: nat): World
    requires Enabled(w, Take(worker))
  {
    var i := FirstRunnable(w.pending, w.runningKeys);
    var item := w.pending[i];
    w.(
    pending := RemoveFirstEqual(w.pending, item),
    runningKeys := if item.key != "" then w.runningKeys + {item.key} else w.runningKeys,
    active := w.active + 1,
    hands := w.hands[worker := item],
    started := w.started + [item])
  }

  function Step(w: World, e: Event): World
    requires Enabled(w, e)
  {
    match e
    case Submit(item) => Accept(w, item)
    case Take(worker) => Start(w, worker)
    case Finish(worker) =>
      w.(
      active := if w.active > 0 then w.active - 1 else 0,
      runningKeys := w.runningKeys - {w.hands[worker].key},
      hands := w.hands - {worker})
    case Close => w.(closed := true)
  }

  // ------------------------------------------------------------------ invariant

  /** The uncoalesced calls of a lane, in order. */
  function Plain(items: seq<Item>, lane: string): seq<Item> {
    if items == [] then []
    else (if items[0].key == lane && !Coalesced(items[0]) then [items[0]] else []) + Plain(items[1..], lane)
  }

  predicate OneCoalesced(pending: seq<Item>) {
    forall i, j :: 0 <= i < j < |pending| && Coalesced(pending[i]) && Coalesced(pending[j]) ==>
      pending[i].key != pending[j].key
  }

  ghost predicate LanesInv(w: World) {
    && (forall t :: t in w.hands && w.hands[t].key != "" ==> w.hands[t].key in w.runningKeys)
    && (forall key :: key in w.runningKeys ==> exists t :: t in w.hands && w.hands[t].key == key)
    && (forall t, u :: t in w.hands && u in w.hands && t != u && w.hands[t].key != "" ==>
          w.hands[t].key != w.hands[u].key)
    && "" !in w.runningKeys && w.active == |w.hands|
  }

  ghost predicate OrderInv(w: World) {
    forall lane :: InOrder(w, lane)
  }

  ghost predicate InOrder(w: World, lane: string) {
    Plain(w.started, lane) + Plain(w.pending, lane) == Plain(w.accepted, lane)
  }

  /** Position of the last coalesced call of a lane; the length when there is none. */
  function LastCoalesced(items: seq<Item>, lane: string): (i: nat)
    ensures i <= |items|
    ensures i < |items| ==> Coalesced(items[i]) && items[i].key == lane
    ensures forall j :: 0 <= j < |items| && (i == |items| || i < j) ==> !(Coalesced(items[j]) && items[j].key == lane)
  {
    if items == [] then 0
    else
      var last := items[|items| - 1];
      if Coalesced(last) && last.key == lane then |items| - 1
      else
        var earlier := LastCoalesced(items[..|items| - 1], lane);
        if earlier == |items| - 1 then |items| else earlier
  }

  predicate Queued(pending: seq<Item>, lane: string) {
    exists i :: 0 <= i < |pending| && Coalesced(pending[i]) && pending[i].key == lane
  }

  predicate LastStartedIs(started: seq<Item>, lane: string, call: nat) {
    var i := LastCoalesced(started, lane);
    i < |started| && started[i].call == call
  }

  ghost predicate QueuedAreLatest(pending: seq<Item>, latest: map<string, nat>) {
    forall i :: 0 <= i < |pending| && Coalesced(pending[i]) ==>
      pending[i].key in latest && pending[i].call == latest[pending[i].key]
  }

  ghost predicate LatestKept(pending: seq<Item>, started: seq<Item>, latest: map<string, nat>) {
    forall lane :: lane in latest ==> Queued(pending, lane) || LastStartedIs(started, lane, latest[lane])
  }

  ghost predicate LatestInv(w: World) {
    OneCoalesced(w.pending) && QueuedAreLatest(w.pending, w.latest) && LatestKept(w.pending, w.started, w.latest)
  }

  ghost predicate WorldInv(w: World) {
    LanesInv(w) && OrderInv(w) && LatestInv(w) && |w.pending| <= w.maxPending
  }

  // --------------------------------------------------------------------- proofs

  lemma {:induction false} PlainConcat(a: seq<Item>, b: seq<Item>, lane: string)
    ensures Plain(a + b, lane) == Plain(a, lane) + Plain(b, lane)
  {
    if a == [] {
      assert a + b == b;
    } else {
      assert (a + b)[1..] == a[1..] + b;
      PlainConcat(a[1..], b, lane);
    }
  }

  lemma {:induction false} PlainSkips(items: seq<Item>, lane: string)
    requires forall item :: item in items ==> item.key != lane || Coalesced(item)
    ensures Plain(items, lane) == []
  {
    if items != [] {
      PlainSkips(items[1..], lane);
    }
  }

  lemma PlainSplit(items: seq<Item>, i: nat, lane: string)
    requires i < |items|
    ensures Plain(items, lane) == Plain(items[..i], lane) + Plain([items[i]], lane) + Plain(items[i + 1..], lane)
    ensures Plain(Without(items, i), lane) == Plain(items[..i], lane) + Plain(items[i + 1..], lane)
  {
    assert items == (items[..i] + [items[i]]) + items[i + 1..];
    PlainConcat(items[..i] + [items[i]], items[i + 1..], lane);
    PlainConcat(items[..i], [items[i]], lane);
    PlainConcat(items[..i], items[i + 1..], lane);
  }

  /** Replacing the call of a coalesced item is invisible to the uncoalesced ones. */
  lemma PlainIgnoresCoalesced(items: seq<Item>, i: nat, call: nat, lane: string)
    requires i < |items| && Coalesced(items[i])
    ensures Plain(items[i := items[i].(call := call)], lane) == Plain(items, lane)
  {
    var out := items[i := items[i].(call := call)];
    PlainSplit(items, i, lane);
    PlainSplit(out, i, lane);
    assert out[..i] == items[..i] && out[i + 1..] == items[i + 1..];
  }

  lemma AcceptKeepsOrder(w: World, item: Item)
    requires OrderInv(w)
    ensures OrderInv(Accept(w, item))
  {
    var t := Accept(w, item);
    var at := CoalescedAt(w.pending, item.key);
    forall lane ensures InOrder(t, lane) {
      assert InOrder(w, lane);
      if !w.closed && Submitted(w.pending, item, w.maxPending).1 {
        if Coalesced(item) && at < |w.pending| {
          PlainIgnoresCoalesced(w.pending, at, item.call, lane);
        } else {
          PlainConcat(w.pending, [item], lane);
          PlainConcat(w.accepted, [item], lane);
        }
      }
    }
  }

  /** Taking the first item of its lane moves it to the end of the lane's started calls. */
  lemma TakenInOrder(started: seq<Item>, pending: seq<Item>, i: nat, lane: string)
    requires i < |pending|
    requires pending[i].key == lane ==> forall j :: 0 <= j < i ==> pending[j].key != lane
    ensures Plain(started + [pending[i]], lane) + Plain(Without(pending, i), lane)
         == Plain(started, lane) + Plain(pending, lane)
  {
    PlainSplit(pending, i, lane);
    PlainConcat(started, [pending[i]], lane);
    if pending[i].key == lane {
      PlainSkips(pending[..i], lane);
    }
    MovedAcross(Plain(started, lane), Plain([pending[i]], lane), Plain(pending[..i], lane), Plain(pending[i + 1..], lane));
  }

  lemma MovedAcross(s: seq<Item>, one: seq<Item>, before: seq<Item>, after: seq<Item>)
    requires one == [] || before == []
    ensures (s + one) + (before + after) == s + ((before + one) + after)
  {
    if one == [] {
      assert s + one == s && before + one == before;
    } else {
      assert (s + one) + (before + after) == s + (one + after);
    }
  }

  lemma StartKeepsOrder(w: World, worker: nat)
    requires OrderInv(w) && Enabled(w, Take(worker))
    ensures OrderInv(Start(w, worker))
  {
    var t := Start(w, worker);
    var i := FirstRunnable(w.pending, w.runningKeys);
    RemovesTheSelectedItem(w.pending, w.runningKeys);
    forall lane ensures InOrder(t, lane) {
      assert InOrder(w, lane);
      TakenInOrder(w.started, w.pending, i, lane);
    }
  }

  lemma QueuedStays(p: seq<Item>, q: seq<Item>)
    requires |p| <= |q| && forall i :: 0 <= i < |p| ==> q[i].key == p[i].key && q[i].coalesce == p[i].coalesce
    ensures forall lane :: Queued(p, lane) ==> Queued(q, lane)
  {
    forall lane | Queued(p, lane) ensures Queued(q, lane) {
      var i :| 0 <= i < |p| && Coalesced(p[i]) && p[i].key == lane;
      assert Coalesced(q[i]) && q[i].key == lane;
    }
  }

  lemma ReplaceKeepsLatest(w: World, item: Item, at: nat)
    requires LatestInv(w) && Coalesced(item) && at == CoalescedAt(w.pending, item.key) < |w.pending|
    ensures LatestInv(w.(pending := w.pending[at := w.pending[at].(call := item.call)],
                         latest := w.latest[item.key := item.call]))
  {
    var q := w.pending[at := w.pending[at].(call := item.call)];
    QueuedStays(w.pending, q);
    assert Coalesced(q[at]) && q[at].key == item.key;
  }

  lemma AppendKeepsLatest(w: World, item: Item)
    requires LatestInv(w) && (Coalesced(item) ==> CoalescedAt(w.pending, item.key) == |w.pending|)
    ensures LatestInv(w.(pending := w.pending + [item],
                         latest := if Coalesced(item) then w.latest[item.key := item.call] else w.latest))
  {
    var q := w.pending + [item];
    QueuedStays(w.pending, q);
    assert q[|w.pending|] == item;
  }

  lemma AcceptKeepsLatest(w: World, item: Item)
    requires LatestInv(w)
    ensures LatestInv(Accept(w, item))
  {
    if !w.closed && Submitted(w.pending, item, w.maxPending).1 {
      var at := CoalescedAt(w.pending, item.key);
      if Coalesced(item) && at < |w.pending| {
        ReplaceKeepsLatest(w, item, at);
      } else {
        AppendKeepsLatest(w, item);
      }
    }
  }

  /** The only coalesced item of its lane leaves the queue and starts. */
  lemma TakenKeepsLatest(pending: seq<Item>, started: seq<Item>, latest: map<string, nat>, i: nat)
    requires i < |pending| && OneCoalesced(pending) && QueuedAreLatest(pending, latest)
    requires LatestKept(pending, started, latest)
    ensures LatestKept(Without(pending, i), started + [pending[i]], latest)
  {
    var q, out, item := Without(pending, i), started + [pending[i]], pending[i];
    assert out[..|out| - 1] == started;
    forall lane | lane in latest ensures Queued(q, lane) || LastStartedIs(out, lane, latest[lane]) {
      if Coalesced(item) && item.key == lane {
        assert LastCoalesced(out, lane) == |out| - 1;
      } else if Queued(pending, lane) {
        var j :| 0 <= j < |pending| && Coalesced(pending[j]) && pending[j].key == lane;
        assert q[if j < i then j else j - 1] == pending[j];
      } else {
        assert LastStartedIs(started, lane, latest[lane]);
      }
    }
  }

  lemma StartKeepsLatest(w: World, worker: nat)
    requires LatestInv(w) && Enabled(w, Take(worker))
    ensures LatestInv(Start(w, worker))
  {
    var t := Start(w, worker);
    var i := FirstRunnable(w.pending, w.runningKeys);
    RemovesTheSelectedItem(w.pending, w.runningKeys);
    TakenKeepsLatest(w.pending, w.started, w.latest, i);
    assert forall j :: 0 <= j < |t.pending| ==> t.pending[j] == w.pending[if j < i then j else j + 1];
  }

  lemma StartKeepsLanes(w: World, worker: nat)
    requires LanesInv(w) && Enabled(w, Take(worker))
    ensures LanesInv(Start(w, worker))
  {
    JoinKeepsLanes(w, Start(w, worker), worker, w.pending[FirstRunnable(w.pending, w.runningKeys)]);
  }

  /** A worker takes up an item whose lane is free. */
  lemma JoinKeepsLanes(w: World, t: World, worker: nat, item: Item)
    requires LanesInv(w) && worker !in w.hands && !Busy(item, w.runningKeys)
    requires t.hands == w.hands[worker := item] && t.active == w.active + 1
    requires t.runningKeys == if item.key != "" then w.runningKeys + {item.key} else w.runningKeys
    ensures LanesInv(t)
  {
    forall key | key in t.runningKeys ensures exists u :: u in t.hands && t.hands[u].key == key {
      if key in w.runningKeys {
        var u :| u in w.hands && w.hands[u].key == key;
        assert t.hands[u].key == key;
      } else {
        assert t.hands[worker].key == key;
      }
    }
    assert t.hands.Keys == w.hands.Keys + {worker};
    assert |t.hands| == |t.hands.Keys| && |w.hands| == |w.hands.Keys|;
  }

  lemma FinishKeepsLanes(w: World, worker: nat)
    requires LanesInv(w) && Enabled(w, Finish(worker))
    ensures LanesInv(Step(w, Finish(worker)))
  {
    var t := Step(w, Finish(worker));
    forall key | key in t.runningKeys ensures exists u :: u in t.hands && t.hands[u].key == key {
      var u :| u in w.hands && w.hands[u].key == key;
      assert t.hands[u].key == key;
    }
    assert t.hands.Keys == w.hands.Keys - {worker};
    assert |t.hands| == |t.hands.Keys| && |w.hands| == |w.hands.Keys|;
  }

  lemma StepKeepsInv(w: World, e: Event)
    requires WorldInv(w) && Enabled(w, e)
    ensures WorldInv(Step(w, e))
  {
    match e
    case Submit(item) =>
      AcceptKeepsOrder(w, item);
      AcceptKeepsLatest(w, item);
    case Take(worker) =>
      StartKeepsLanes(w, worker);
      StartKeepsOrder(w, worker);
      StartKeepsLatest(w, worker);
      RemovesTheSelectedItem(w.pending, w.runningKeys);
    case Finish(worker) =>
      FinishKeepsLanes(w, worker);
      SameOrder(w, Step(w, e));
    case Close => SameOrder(w, Step(w, e));
  }

  lemma SameOrder(w: World, t: World)
    requires OrderInv(w) && t.started == w.started && t.pending == w.pending && t.accepted == w.accepted
    ensures OrderInv(t)
  {
    forall lane ensures InOrder(t, lane) {
      assert InOrder(w, lane);
    }
  }

  // ------------------------------------------------------------------- theorems

  predicate ValidRun(w: World, events: seq<Event>)
    decreases |events|
  {
    events == [] || (Enabled(w, events[0]) && ValidRun(Step(w, events[0]), events[1..]))
  }

  function After(w: World, events: seq<Event>): World
    requires ValidRun(w, events)
    decreases |events|
  {
    if events == [] then w else After(Step(w, events[0]), events[1..])
  }

  lemma {:induction false} RunKeepsInv(w: World, events: seq<Event>)
    requires WorldInv(w) && ValidRun(w, events)
    ensures WorldInv(After(w, events))
    decreases |events|
  {
    if events != [] {
      StepKeepsInv(w, events[0]);
      RunKeepsInv(Step(w, events[0]), events[1..]);
    }
  }

  lemma EmptyInv(maxPending: int)
    ensures WorldInv(Empty(maxPending))
  {
    forall lane ensures InOrder(Empty(maxPending), lane) {
    }
  }

  /** Never two running calls of one lane, never more queued than the bound. */
  lemma LanesNeverOverlap(maxPending: int, events: seq<Event>, t: nat, u: nat)
    requires ValidRun(Empty(maxPending), events)
    ensures var w := After(Empty(maxPending), events);
            && |w.pending| <= w.maxPending
            && w.active == |w.hands|
            && (t in w.hands && u in w.hands && t != u && w.hands[t].key != "" ==> w.hands[t].key != w.hands[u].key)
  {
    EmptyInv(maxPending);
    RunKeepsInv(Empty(maxPending), events);
  }

  /** The uncoalesced calls of a lane start once each, in the order they were
      accepted; what has not started is still queued, in that order. */
  lemma LaneOrder(maxPending: int, events: seq<Event>, lane: string)
    requires ValidRun(Empty(maxPending), events)
    ensures var w := After(Empty(maxPending), events);
            Plain(w.started, lane) + Plain(w.pending, lane) == Plain(w.accepted, lane)
  {
    EmptyInv(maxPending);
    RunKeepsInv(Empty(maxPending), events);
    assert InOrder(After(Empty(maxPending), events), lane);
  }

  /** The newest accepted coalesced call of a lane is queued, alone, or was the last
      of its lane to start: it is never lost and never overtaken by an older one. */
  lemma LatestIsNeverLost(maxPending: int, events: seq<Event>, lane: string)
    requires ValidRun(Empty(maxPending), events)
    requires lane in After(Empty(maxPending), events).latest
    ensures var w := After(Empty(maxPending), events);
            var at := CoalescedAt(w.pending, lane);
            var last := LastCoalesced(w.started, lane);
            if at < |w.pending| then
              && w.pending[at] == Item(w.latest[lane], lane, true)
              && forall j :: 0 <= j < |w.pending| && Coalesced(w.pending[j]) && w.pending[j].key == lane ==> j == at
            else last < |w.started| && w.started[last] == Item(w.latest[lane], lane, true)
  {
    EmptyInv(maxPending);
    RunKeepsInv(Empty(maxPending), events);
    var w := After(Empty(maxPending), events);
    var at := CoalescedAt(w.pending, lane);
    assert LatestKept(w.pending, w.started, w.latest);
  }

  /** With no call running, a queued call can start: the queue never sticks. */
  lemma NeverStuck(maxPending: int, events: seq<Event>, worker: nat)
    requires ValidRun(Empty(maxPending), events)
    requires After(Empty(maxPending), events).hands == map[] && After(Empty(maxPending), events).pending != []
    ensures Enabled(After(Empty(maxPending), events), Take(worker))
  {
    EmptyInv(maxPending);
    RunKeepsInv(Empty(maxPending), events);
    var w := After(Empty(maxPending), events);
    assert w.pending[0] in w.pending;
    StartsUnlessAllBusy(w.pending, w.runningKeys);
  }

  // ------------------------------------------------------- what each step promises

  /** A newer coalesced call takes the place of the queued one of its lane; any other call
      joins the queue exactly while there is room. */
  ghost predicate Submits(before: seq<Item>, after: seq<Item>, accepted: bool, item: Item, maxPending: nat) {
    if item.coalesce && item.key != "" && exists q :: q in before && q.coalesce && q.key == item.key then
      accepted && exists i :: 0 <= i < |before| && before[i].coalesce && before[i].key == item.key
                              && after == before[i := Item(item.call, item.key, true)]
    else accepted == (|before| < maxPending) && after == if accepted then before + [item] else before
  }

  lemma SubmittingSubmits(pending: seq<Item>, item: Item, maxPending: nat)
    ensures var r := Submitted(pending, item, maxPending); Submits(pending, r.0, r.1, item, maxPending)
  {
    var at := CoalescedAt(pending, item.key);
    if at < |pending| {
      assert pending[at] in pending;
    }
    if exists q :: q in pending && q.coalesce && q.key == item.key && item.key != "" {
      var q :| q in pending && q.coalesce && q.key == item.key;
      var j :| 0 <= j < |pending| && pending[j] == q;
      assert Coalesced(pending[j]);
    }
  }

  /** The first item of a free lane leaves the queue, and nothing else. */
  predicate TakesFirstFree(before: seq<Item>, after: seq<Item>, running: set<string>, item: Item) {
    exists i :: 0 <= i < |before| && before[i] == item && (item.key == "" || item.key !in running)
                && (forall j :: 0 <= j < i ==> before[j].key != "" && before[j].key in running)
                && after == before[..i] + before[i + 1..]
  }

  lemma RemovalTakes(pending: seq<Item>, running: set<string>)
    requires FirstRunnable(pending, running) < |pending|
    ensures var item := pending[FirstRunnable(pending, running)];
            TakesFirstFree(pending, RemoveFirstEqual(pending, item), running, item)
  {
    RemovesTheSelectedItem(pending, running);
  }

  lemma TakingTakes(w: World, worker: nat)
    requires Enabled(w, Take(worker))
    ensures var t := Step(w, Take(worker));
            && worker in t.hands && t.hands == w.hands[worker := t.hands[worker]]
            && TakesFirstFree(w.pending, t.pending, w.runningKeys, t.hands[worker])
            && t.started == w.started + [t.hands[worker]] && t.active == w.active + 1
            && t.runningKeys == w.runningKeys + (if t.hands[worker].key == "" then {} else {t.hands[worker].key})
  {
    RemovalTakes(w.pending, w.runningKeys);
  }

  /** In an open outbox a call is lost only when it is refused, for want of room. */
  lemma SubmitMeans(w: World, item: Item) returns (accepted: bool)
    ensures var t := Step(w, Submit(item));
            && t == w.(pending := t.pending, accepted := t.accepted, latest := t.latest)
            && (w.closed ==> !accepted && t == w)
            && (!w.closed ==> Submits(w.pending, t.pending, accepted, item, w.maxPending))
            && (!accepted ==> t == w)
            && (accepted && !Coalesced(item) ==> t.accepted == w.accepted + [item] && t.latest == w.latest)
            && (accepted && Coalesced(item) ==> t.latest == w.latest[item.key := item.call] && t.accepted == w.accepted)
  {
    SubmittingSubmits(w.pending, item, w.maxPending);
    accepted := !w.closed && Submitted(w.pending, item, w.maxPending).1;
  }

  lemma {:induction false} Joined(w: World, a: seq<Event>, b: seq<Event>)
    requires ValidRun(w, a) && ValidRun(After(w, a), b)
    ensures ValidRun(w, a + b) && After(w, a + b) == After(After(w, a), b)
    decreases |a|
  {
    if a == [] {
      assert a + b == b;
    } else {
      assert (a + b)[1..] == a[1..] + b;
      Joined(Step(w, a[0]), a[1..], b);
    }
  }

  lemma Then(w: World, e: Event, rest: seq<Event>)
    requires Enabled(w, e) && ValidRun(Step(w, e), rest)
    ensures ValidRun(w, [e] + rest) && After(w, [e] + rest) == After(Step(w, e), rest)
  {
    assert ([e] + rest)[1..] == rest;
  }

  /** Running calls can finish, whatever they are. */
  lemma {:induction false} HandsFinish(w: World) returns (events: seq<Event>)
    ensures ValidRun(w, events) && After(w, events).hands == map[]
    ensures After(w, events).pending == w.pending && After(w, events).started == w.started
    decreases |w.hands|
  {
    if w.hands == map[] {
      events := [];
    } else {
      var worker :| worker in w.hands;
      var t := Step(w, Finish(worker));
      assert t.hands.Keys == w.hands.Keys - {worker} && |t.hands.Keys| == |w.hands.Keys| - 1;
      assert |t.hands| == |t.hands.Keys| && |w.hands| == |w.hands.Keys|;
      var rest := HandsFinish(t);
      Then(w, Finish(worker), rest);
      events := [Finish(worker)] + rest;
    }
  }

  /** One queued call starts and finishes. */
  lemma OneGoesThrough(w: World, worker: nat) returns (events: seq<Event>)
    requires WorldInv(w) && w.hands == map[] && w.pending != []
    ensures ValidRun(w, events)
    ensures After(w, events).hands == map[] && |After(w, events).pending| < |w.pending|
    ensures exists item :: item in w.pending && After(w, events).started == w.started + [item]
  {
    assert !Busy(w.pending[0], w.runningKeys) && w.pending[0] in w.pending;
    StartsUnlessAllBusy(w.pending, w.runningKeys);
    TakingTakes(w, worker);
    var t := Step(w, Take(worker));
    var u := Step(t, Finish(worker));
    assert u.hands == map[];
    Then(t, Finish(worker), []);
    Then(w, Take(worker), [Finish(worker)] + []);
    events := [Take(worker)] + ([Finish(worker)] + []);
  }

  lemma {:induction false} QueueEmpties(w: World, worker: nat) returns (events: seq<Event>)
    requires WorldInv(w) && w.hands == map[]
    ensures ValidRun(w, events) && After(w, events).pending == []
    decreases |w.pending|
  {
    if w.pending == [] {
      events := [];
    } else {
      var first := OneGoesThrough(w, worker);
      RunKeepsInv(w, first);
      var rest := QueueEmpties(After(w, first), worker);
      Joined(w, first, rest);
      events := first + rest;
    }
  }

  /** From any reachable outbox the workers can run it empty; then every uncoalesced call ever
      accepted has started, in its lane's order. */
  lemma EverythingCanRun(maxPending: int, events: seq<Event>, worker: nat, lane: string) returns (more: seq<Event>)
    requires ValidRun(Empty(maxPending), events)
    ensures ValidRun(After(Empty(maxPending), events), more)
    ensures var t := After(After(Empty(maxPending), events), more);
            t.pending == [] && Plain(t.started, lane) == Plain(t.accepted, lane)
  {
    var w := After(Empty(maxPending), events);
    EmptyInv(maxPending);
    RunKeepsInv(Empty(maxPending), events);
    var done := HandsFinish(w);
    RunKeepsInv(w, done);
    var rest := QueueEmpties(After(w, done), worker);
    Joined(w, done, rest);
    more := done + rest;
    RunKeepsInv(w, more);
    assert InOrder(After(w, more), lane);
  }
}
