/** What a coordinator call and a change of the queue file do to the hand-offs. */
module ManagerHandoffProof {
  import opened Common
  import opened MaintenanceModel
  import opened MaintenanceInvariant
  import opened IdentityFrames
  import opened ManagerQueue
  import opened ManagerHandoff

  lemma HandEffectPruned(p: State, to: string, context: string, lease: nat, id: QueueId, now: real)
    requires ReceiptsSay(p.continuationReceipts, id, to, context)
    requires HasRoot(p, id) ==> HasReceipt(p.continuationReceipts, id)
    ensures var (t, accepted) := EnqueueContinuation(p, to, context, lease, Some(id), now);
            && (|t.roots| > |p.roots| <==> !HasReceipt(p.continuationReceipts, id) && lease in p.leases)
            && (accepted <==> HasReceipt(p.continuationReceipts, id) || lease in p.leases)
            && (accepted <==> HasReceipt(t.continuationReceipts, id))
            && (HasRoot(t, id) ==> HasReceipt(t.continuationReceipts, id))
            && (!accepted ==> lease !in t.leases)
            && t.ingressReceipts == p.ingressReceipts
  {
    var k := ReceiptIndex(p.continuationReceipts, id);
    if k < |p.continuationReceipts| {
      assert p.continuationReceipts[k] in p.continuationReceipts;
    }
    RootMembership(p, id);
    var t := EnqueueContinuation(p, to, context, lease, Some(id), now).0;
    if k == |p.continuationReceipts| && lease in p.leases {
      assert t.continuationReceipts[k].queueId == id;
    }
  }

  /** Offering hand-off h to the coordinator, seen from its receipts. */
  lemma HandEffect(s: State, to: string, context: string, lease: nat, h: nat, now: real)
    requires Inv(s) && Keeps(s, now, Handoff(h))
    requires ReceiptsSay(s.continuationReceipts, Handoff(h), to, context)
    requires HasRoot(s, Handoff(h)) ==> HasReceipt(s.continuationReceipts, Handoff(h))
    ensures var op := OpEnqueueContinuation(to, context, lease, Some(Handoff(h)));
            var t := Apply(s, op, now);
            var accepted := EnqueueContinuation(Prune(s, now), to, context, lease, Some(Handoff(h)), now).1;
            && (Appends(s, op, now) <==>
                !HasReceipt(s.continuationReceipts, Handoff(h)) && lease in Prune(s, now).leases)
            && (accepted <==> HasReceipt(s.continuationReceipts, Handoff(h)) || Appends(s, op, now))
            && (accepted <==> HasReceipt(t.continuationReceipts, Handoff(h)))
            && (HasRoot(t, Handoff(h)) ==> HasReceipt(t.continuationReceipts, Handoff(h)))
            && (!accepted ==> lease !in t.leases)
  {
    var id := Handoff(h);
    PruneSameFor(s, now, id);
    ReceiptMembership(s.continuationReceipts, id);
    ReceiptMembership(Prune(s, now).continuationReceipts, id);
    HandEffectPruned(Prune(s, now), to, context, lease, id, now);
  }

  // ------------------------------------------------------------- list membership

  lemma WithoutMembership(items: seq<Item>, ids: set<nat>, h: nat)
    ensures InQueue(Without(items, ids), h) <==> h !in ids && InQueue(items, h)
    ensures PlainInQueue(Without(items, ids), h) <==> h !in ids && PlainInQueue(items, h)
    ensures PreparedInQueue(Without(items, ids), h) <==> h !in ids && PreparedInQueue(items, h)
  {
    WithoutKeepsTheRest(items, ids);
    SubsetMembership(items, Without(items, ids), h);
    if h !in ids {
      Occurrence(items, Without(items, ids), h);
    }
  }

  lemma SubsetMembership(items: seq<Item>, fewer: seq<Item>, h: nat)
    requires forall x :: x in fewer ==> x in items
    ensures InQueue(fewer, h) ==> InQueue(items, h)
    ensures PlainInQueue(fewer, h) ==> PlainInQueue(items, h)
    ensures PreparedInQueue(fewer, h) ==> PreparedInQueue(items, h)
  {
    forall i | 0 <= i < |fewer| ensures exists k :: 0 <= k < |items| && items[k] == fewer[i] {
      assert fewer[i] in items;
    }
  }

  lemma Occurrence(items: seq<Item>, fewer: seq<Item>, h: nat)
    requires forall x :: x in items && x.id == h ==> x in fewer
    ensures InQueue(items, h) ==> InQueue(fewer, h)
    ensures PlainInQueue(items, h) ==> PlainInQueue(fewer, h)
    ensures PreparedInQueue(items, h) ==> PreparedInQueue(fewer, h)
  {
    forall i | 0 <= i < |items| && items[i].id == h ensures exists k :: 0 <= k < |fewer| && fewer[k] == items[i] {
      assert items[i] in items;
    }
  }

  lemma AppendMembership(queue: seq<Item>, item: Item, h: nat)
    ensures InQueue(queue + [item], h) <==> InQueue(queue, h) || item.id == h
    ensures PlainInQueue(queue + [item], h) <==> PlainInQueue(queue, h) || (item.id == h && item.lease.None?)
    ensures PreparedInQueue(queue + [item], h) <==> PreparedInQueue(queue, h) || (item.id == h && item.lease.Some?)
  {
    var out := queue + [item];
    assert out[|queue|] == item;
    assert forall i :: 0 <= i < |queue| ==> out[i] == queue[i];
  }

  lemma {:induction false} SkippedAreThere(todo: seq<Item>, to: string)
    ensures forall x :: x in SkipRecipient(todo, to) ==> x in todo
  {
    if todo != [] {
      SkippedAreThere(todo[1..], to);
    }
  }

  lemma SubsetKnown(sys: Sys, items: seq<Item>, fewer: seq<Item>)
    requires ItemsKnown(sys, items) && forall x :: x in fewer ==> x in items
    ensures ItemsKnown(sys, fewer)
  {
    forall i | 0 <= i < |fewer| ensures ItemKnown(sys, fewer[i]) {
      assert fewer[i] in items;
    }
  }

  /** A hand-off nobody has begun is mentioned nowhere. */
  lemma FreshIsUnmentioned(sys: Sys, h: nat)
    requires Known(sys) && h !in sys.senders
    ensures !InQueue(sys.queue, h) && (sys.drainer.Passing? ==> !InQueue(sys.drainer.todo, h))
  {
    forall i | 0 <= i < |sys.queue| ensures sys.queue[i].id != h {
      assert ItemKnown(sys, sys.queue[i]);
    }
    if sys.drainer.Passing? {
      forall i | 0 <= i < |sys.drainer.todo| ensures sys.drainer.todo[i].id != h {
        assert ItemKnown(sys, sys.drainer.todo[i]);
      }
    }
  }

  // ------------------------------------------------------- every hand-off, any call

  /** The call offers nothing but the texts on record. */
  ghost predicate OffersTexts(sys: Sys, op: Op, h: nat) {
    if h in sys.texts then
      && Offers(op, Handoff(h), sys.texts[h].to, sys.texts[h].lineageContext)
      && Offers(op, Ingress(ManagerMessage(h)), sys.texts[h].to, sys.texts[h].ingressContext)
    else !Touches(op, Handoff(h)) && !Touches(op, Ingress(ManagerMessage(h)))
  }

  lemma TextsStay(sys: Sys, op: Op, now: real, h: nat)
    requires Inv(sys.c) && TextsOf(sys, h) && OffersTexts(sys, op, h)
    ensures TextsOf(sys.(c := Apply(sys.c, op, now)), h)
  {
    if h in sys.texts {
      StepSays(sys.c, op, now, Handoff(h), sys.texts[h].to, sys.texts[h].lineageContext);
      StepSays(sys.c, op, now, Ingress(ManagerMessage(h)), sys.texts[h].to, sys.texts[h].ingressContext);
    } else {
      StepUnheard(sys.c, op, now, Handoff(h));
      StepUnheard(sys.c, op, now, Ingress(ManagerMessage(h)));
    }
  }

  /** What is known does not depend on the maintenance document or the counts. */
  lemma KnownFrame(sys: Sys, t: Sys)
    requires Known(sys) && t == sys.(c := t.c, continuations := t.continuations, ingresses := t.ingresses)
    ensures Known(t)
  {
    forall i | 0 <= i < |t.queue| ensures ItemKnown(t, t.queue[i]) {
      assert ItemKnown(sys, sys.queue[i]);
    }
    if t.drainer.Passing? {
      forall i | 0 <= i < |t.drainer.todo| ensures ItemKnown(t, t.drainer.todo[i]) {
        assert ItemKnown(sys, sys.drainer.todo[i]);
      }
    }
  }

  lemma CallKeepsBase(sys: Sys, op: Op, now: real, t: Sys)
    requires Base(sys) && Genuine(sys.c, op) && forall h :: OffersTexts(sys, op, h)
    requires t == sys.(c := Apply(sys.c, op, now), continuations := t.continuations, ingresses := t.ingresses)
    ensures Base(t)
  {
    ApplyKeepsInv(sys.c, op, now);
    KnownFrame(sys, t);
    forall h ensures TextsOf(t, h) && Unqueued(t, h) {
      assert TextsOf(sys, h) && Unqueued(sys, h) && OffersTexts(sys, op, h);
      TextsStay(sys, op, now, h);
    }
  }

  /** Records and senders move; the document, texts and leases stay. */
  lemma MoveKeepsBase(sys: Sys, t: Sys)
    requires Base(sys) && t == sys.(senders := t.senders, queue := t.queue, drainer := t.drainer)
    requires t.senders.Keys == sys.senders.Keys
    requires forall x :: x in sys.senders && HoldsLease(t.senders[x]) ==>
               HoldsLease(sys.senders[x]) && t.senders[x].lease == sys.senders[x].lease
    requires ItemsKnown(sys, t.queue)
    requires t.drainer.Passing? ==> ItemsKnown(sys, t.drainer.todo) && forall h :: h in t.drainer.refused ==> h in sys.senders
    requires forall h :: Unqueued(t, h)
    ensures Base(t)
  {
    forall i | 0 <= i < |t.queue| ensures ItemKnown(t, t.queue[i]) {
      assert ItemKnown(sys, t.queue[i]);
    }
    if t.drainer.Passing? {
      forall i | 0 <= i < |t.drainer.todo| ensures ItemKnown(t, t.drainer.todo[i]) {
        assert ItemKnown(sys, t.drainer.todo[i]);
      }
    }
    forall h ensures TextsOf(t, h) {
      assert TextsOf(sys, h);
    }
  }

  /** Only the pass moves. */
  lemma PassKeepsBase(sys: Sys, d: Drainer)
    requires Base(sys)
    requires d.Passing? ==> ItemsKnown(sys, d.todo) && forall h :: h in d.refused ==> h in sys.senders
    ensures Base(sys.(drainer := d))
  {
    var t := sys.(drainer := d);
    forall h ensures Unqueued(t, h) {
      assert Unqueued(sys, h);
    }
    MoveKeepsBase(sys, t);
  }

  /** Only one sender and its record move. */
  lemma SenderKeepsBase(sys: Sys, t: Sys, h: nat)
    requires Base(sys) && h in sys.senders
    requires h in t.senders && t == sys.(senders := sys.senders[h := t.senders[h]], queue := t.queue)
    requires HoldsLease(t.senders[h]) ==> HoldsLease(sys.senders[h]) && t.senders[h].lease == sys.senders[h].lease
    requires ItemsKnown(sys, t.queue) && Unqueued(t, h)
    requires forall x :: x != h ==> (InQueue(t.queue, x) ==> InQueue(sys.queue, x))
    ensures Base(t)
  {
    forall x ensures Unqueued(t, x) {
      assert Unqueued(sys, x);
    }
    MoveKeepsBase(sys, t);
  }

  lemma BegunKeepsBase(sys: Sys, h: nat, message: Message, lease: Option<nat>)
    requires Base(sys) && h !in sys.senders
    ensures Base(Begun(sys, h, message, lease))
  {
    var t := Begun(sys, h, message, lease);
    FreshIsUnmentioned(sys, h);
    forall i | 0 <= i < |t.queue| ensures ItemKnown(t, t.queue[i]) {
      assert ItemKnown(sys, sys.queue[i]);
    }
    if t.drainer.Passing? {
      forall i | 0 <= i < |t.drainer.todo| ensures ItemKnown(t, t.drainer.todo[i]) {
        assert ItemKnown(sys, sys.drainer.todo[i]);
      }
    }
    forall x ensures TextsOf(t, x) && Unqueued(t, x) {
      assert TextsOf(sys, x) && Unqueued(sys, x);
      if x == h {
        UnheardSays(sys.c, Handoff(h), message.to, message.lineageContext);
        UnheardSays(sys.c, Ingress(ManagerMessage(h)), message.to, message.ingressContext);
      }
    }
  }

  lemma UnheardSays(s: State, id: QueueId, to: string, context: string)
    requires Unheard(s, id)
    ensures Says(s, id, to, context)
  {
  }

  /** A hand-off enters with a fresh lease, or falls back at once. */
  function Begun(sys: Sys, h: nat, message: Message, lease: Option<nat>): Sys {
    sys.(
    texts := sys.texts[h := message],
    leases := if lease.Some? then sys.leases[h := lease.value] else sys.leases,
    senders := sys.senders[h := if lease.Some? then Acquired(lease.value) else FallingBack])
  }

  lemma OurCallsOfferTexts(sys: Sys, h: nat, x: nat)
    requires h in sys.texts
    ensures h in sys.leases ==> OffersTexts(sys, HandOp(sys, h), x)
    ensures OffersTexts(sys, IngressOp(sys, h), x)
  {
  }

  lemma HandKeepsBase(sys: Sys, h: nat, now: real)
    requires Base(sys) && h in sys.texts && h in sys.leases
    ensures Base(WithHand(sys, h, now))
  {
    forall x ensures OffersTexts(sys, HandOp(sys, h), x) {
      OurCallsOfferTexts(sys, h, x);
    }
    CallKeepsBase(sys, HandOp(sys, h), now, WithHand(sys, h, now));
  }

  /** The ordinary delivery is accepted whatever was evicted in between. */
  lemma IngressKeepsBase(sys: Sys, h: nat, now: real)
    requires Base(sys) && h in sys.texts
    ensures Base(WithIngress(sys, h, now)) && IngressAccepted(sys, h, now)
  {
    forall x ensures OffersTexts(sys, IngressOp(sys, h), x) {
      OurCallsOfferTexts(sys, h, x);
    }
    CallKeepsBase(sys, IngressOp(sys, h), now, WithIngress(sys, h, now));
    assert TextsOf(sys, h);
    OfferIsAccepted(sys.c, sys.texts[h].to, sys.texts[h].ingressContext, ManagerMessage(h), now);
  }

  // ---------------------------------------------------------- one hand-off, any call

  ghost predicate KeepsFor(s: State, now: real, h: nat) {
    Keeps(s, now, Handoff(h)) && Keeps(s, now, Ingress(ManagerMessage(h)))
  }

  lemma SameReceiptsTell(sys: Sys, c: State, h: nat)
    requires ReceiptsTell(sys, h)
    requires SameFor(sys.c, c, Handoff(h)) && SameFor(sys.c, c, Ingress(ManagerMessage(h)))
    ensures ReceiptsTell(sys.(c := c), h)
  {
    ReceiptMembership(sys.c.continuationReceipts, Handoff(h));
    ReceiptMembership(c.continuationReceipts, Handoff(h));
    ReceiptMembership(sys.c.ingressReceipts, Ingress(ManagerMessage(h)));
    ReceiptMembership(c.ingressReceipts, Ingress(ManagerMessage(h)));
  }

  lemma CoordinatorKeepsHandoff(sys: Sys, c: State, h: nat)
    requires HandoffInv(sys, h) && LeasesFromSupply(sys.c, c)
    requires SameFor(sys.c, c, Handoff(h)) && SameFor(sys.c, c, Ingress(ManagerMessage(h)))
    ensures HandoffInv(sys.(c := c), h)
  {
    SameReceiptsTell(sys, c, h);
    var t := sys.(c := c);
    assert Spent(sys, h) ==> Spent(t, h);
    assert Armed(sys, h) == Armed(t, h);
    assert Closed(sys, h) ==> Closed(t, h);
    assert Touched(sys, h) == Touched(t, h);
  }

  /** Traffic that is none of the hand-off's business leaves it as it was. */
  lemma ForeignCallKeepsHandoff(sys: Sys, op: Op, now: real, h: nat)
    requires Inv(sys.c) && HandoffInv(sys, h) && KeepsFor(sys.c, now, h)
    requires !Touches(op, Handoff(h)) && !Touches(op, Ingress(ManagerMessage(h)))
    ensures HandoffInv(sys.(c := Apply(sys.c, op, now)), h)
  {
    FreshLeases(sys.c, op, now);
    StepSameFor(sys.c, op, now, Handoff(h));
    StepSameFor(sys.c, op, now, Ingress(ManagerMessage(h)));
    CoordinatorKeepsHandoff(sys, Apply(sys.c, op, now), h);
  }

  /** Counting somebody else's root does not concern h. */
  lemma CountsKeepHandoff(sys: Sys, t: Sys, h: nat)
    requires HandoffInv(sys, h) && t == sys.(continuations := t.continuations, ingresses := t.ingresses)
    requires t.continuations[h] == sys.continuations[h] && t.ingresses[h] == sys.ingresses[h]
    ensures HandoffInv(t, h)
  {
    assert Spent(sys, h) == Spent(t, h) && Armed(sys, h) == Armed(t, h);
    assert Closed(sys, h) == Closed(t, h) && Touched(sys, h) == Touched(t, h);
    assert ReceiptsTell(t, h);
  }

  lemma HandKeepsOther(sys: Sys, x: nat, now: real, h: nat)
    requires Inv(sys.c) && x in sys.texts && x in sys.leases && x != h
    requires HandoffInv(sys, h) && KeepsFor(sys.c, now, h)
    ensures HandoffInv(WithHand(sys, x, now), h)
  {
    ForeignCallKeepsHandoff(sys, HandOp(sys, x), now, h);
    CountsKeepHandoff(sys.(c := Apply(sys.c, HandOp(sys, x), now)), WithHand(sys, x, now), h);
  }

  lemma IngressKeepsOther(sys: Sys, x: nat, now: real, h: nat)
    requires Inv(sys.c) && x in sys.texts && x != h
    requires HandoffInv(sys, h) && KeepsFor(sys.c, now, h)
    ensures HandoffInv(WithIngress(sys, x, now), h)
  {
    ForeignCallKeepsHandoff(sys, IngressOp(sys, x), now, h);
    CountsKeepHandoff(sys.(c := Apply(sys.c, IngressOp(sys, x), now)), WithIngress(sys, x, now), h);
  }

  lemma HandTells(sys: Sys, h: nat, now: real)
    requires Inv(sys.c) && h in sys.texts && h in sys.leases && TextsOf(sys, h) && ReceiptsTell(sys, h)
    requires KeepsFor(sys.c, now, h)
    ensures ReceiptsTell(WithHand(sys, h, now), h)
    ensures HandAccepted(sys, h, now) <==> WithHand(sys, h, now).continuations[h] > 0
    ensures WithHand(sys, h, now).continuations[h] ==
      sys.continuations[h] + (if sys.continuations[h] == 0 && sys.leases[h] in Prune(sys.c, now).leases then 1 else 0)
    ensures !HandAccepted(sys, h, now) ==> sys.leases[h] !in WithHand(sys, h, now).c.leases
  {
    var op := HandOp(sys, h);
    var message := sys.texts[h];
    HandEffect(sys.c, message.to, message.lineageContext, sys.leases[h], h, now);
    StepSameFor(sys.c, op, now, Ingress(ManagerMessage(h)));
    var out := WithHand(sys, h, now);
    ReceiptMembership(sys.c.ingressReceipts, Ingress(ManagerMessage(h)));
    ReceiptMembership(out.c.ingressReceipts, Ingress(ManagerMessage(h)));
  }

  ghost predicate MayHand(sys: Sys, h: nat) {
    h in sys.senders && !sys.senders[h].Acquired? && h in sys.texts && h in sys.leases && Armed(sys, h)
  }

  lemma HandOnH(sys: Sys, h: nat, now: real)
    requires Base(sys) && HandoffInv(sys, h) && KeepsFor(sys.c, now, h) && MayHand(sys, h)
    ensures HandoffInv(WithHand(sys, h, now), h)
    ensures HandAccepted(sys, h, now) ==> WithHand(sys, h, now).continuations[h] == 1
    ensures !HandAccepted(sys, h, now) ==> Closed(WithHand(sys, h, now), h)
  {
    var op := HandOp(sys, h);
    var out := WithHand(sys, h, now);
    assert TextsOf(sys, h);
    HandTells(sys, h, now);
    FreshLeases(sys.c, op, now);
    assert Prune(sys.c, now).leases.Keys <= sys.c.leases.Keys;
    assert Spent(sys, h) ==> Spent(out, h);
    HandedKeepsHandoff(sys, out, h);
  }

  /** What h keeps when its own offer was made, from what the offer did to its count. */
  lemma HandedKeepsHandoff(sys: Sys, t: Sys, h: nat)
    requires HandoffInv(sys, h) && MayHand(sys, h) && ReceiptsTell(t, h)
    requires t == sys.(c := t.c, continuations := t.continuations)
    requires Spent(sys, h) ==> Spent(t, h) && t.continuations[h] == sys.continuations[h]
    requires sys.continuations[h] <= t.continuations[h] <= 1 && sys.c.nextId <= t.c.nextId
    ensures HandoffInv(t, h)
  {
    assert Touched(sys, h) == Touched(t, h) && Armed(sys, h) == Armed(t, h);
    assert Closed(sys, h) ==> Closed(t, h);
  }

  lemma IngressTells(sys: Sys, h: nat, now: real)
    requires Inv(sys.c) && h in sys.texts && TextsOf(sys, h) && ReceiptsTell(sys, h) && KeepsFor(sys.c, now, h)
    ensures ReceiptsTell(WithIngress(sys, h, now), h)
    ensures WithIngress(sys, h, now).ingresses[h] == sys.ingresses[h] + (if sys.ingresses[h] == 0 then 1 else 0)
  {
    var op := IngressOp(sys, h);
    var message := sys.texts[h];
    IngressEffect(sys.c, message.to, message.ingressContext, ManagerMessage(h), now);
    StepSameFor(sys.c, op, now, Handoff(h));
    var out := WithIngress(sys, h, now);
    ReceiptMembership(sys.c.continuationReceipts, Handoff(h));
    ReceiptMembership(out.c.continuationReceipts, Handoff(h));
  }

  lemma IngressOnH(sys: Sys, h: nat, now: real)
    requires Base(sys) && HandoffInv(sys, h) && KeepsFor(sys.c, now, h)
    requires h in sys.senders && Touched(sys, h) && Closed(sys, h)
    ensures HandoffInv(WithIngress(sys, h, now), h)
    ensures Created(WithIngress(sys, h, now), h) == 1 && WithIngress(sys, h, now).ingresses[h] == 1
  {
    var op := IngressOp(sys, h);
    var out := WithIngress(sys, h, now);
    assert TextsOf(sys, h);
    IngressTells(sys, h, now);
    FreshLeases(sys.c, op, now);
    assert Spent(sys, h) ==> Spent(out, h);
    assert Armed(sys, h) == Armed(out, h);
    assert Closed(out, h);
    assert Touched(out, h);
  }
}
