/** What one transaction does to one queue identity: its receipts, its root and the
    leases it could use. */
module IdentityFrames {
  import opened Common
  import opened MaintenanceModel
  import opened MaintenanceInvariant
  import opened MaintenanceProperties
  import opened MaintenanceRoots

  predicate Touches(op: Op, id: QueueId) {
    || (op.OpEnqueueContinuation? && op.given == Some(id))
    || (op.OpEnqueueIngress? && Ingress(op.source) == id)
  }

  /** The prune of this moment spares the receipts of the identity. */
  ghost predicate Keeps(s: State, now: real, id: QueueId) {
    && (forall r :: r in s.continuationReceipts && r.queueId == id ==> r in Prune(s, now).continuationReceipts)
    && (forall r :: r in s.ingressReceipts && r.queueId == id ==> r in Prune(s, now).ingressReceipts)
  }

  /** Seen from one identity, the document did not gain or lose anything. */
  ghost predicate SameFor(s: State, t: State, id: QueueId) {
    && (forall r: Receipt :: r.queueId == id ==> (r in t.continuationReceipts <==> r in s.continuationReceipts))
    && (forall r: Receipt :: r.queueId == id ==> (r in t.ingressReceipts <==> r in s.ingressReceipts))
    && (HasRoot(t, id) ==> HasRoot(s, id))
  }

  lemma PruneSameFor(s: State, now: real, id: QueueId)
    requires Inv(s) && Keeps(s, now, id)
    ensures SameFor(s, Prune(s, now), id)
  {
    KeptReceiptsBounded(s.continuationReceipts, CONTINUATION_RECEIPT_TTL_SECONDS, MAX_CONTINUATION_RECEIPTS, now);
    KeptReceiptsBounded(s.ingressReceipts, INGRESS_RECEIPT_TTL_SECONDS, MAX_INGRESS_RECEIPTS, now);
    if HasRoot(Prune(s, now), id) {
      var i :| 0 <= i < |Prune(s, now).roots| && Prune(s, now).roots[i].queueId == id;
      assert s.roots[i].queueId == id;
    }
  }

  /** Young receipts in lists within their bounds are spared; a caller can see this. */
  lemma YoungIsKept(s: State, now: real, id: QueueId)
    requires Inv(s)
    requires |s.continuationReceipts| <= MAX_CONTINUATION_RECEIPTS && |s.ingressReceipts| <= MAX_INGRESS_RECEIPTS
    requires forall r :: r in s.continuationReceipts && r.queueId == id ==>
               now - r.acceptedAt < CONTINUATION_RECEIPT_TTL_SECONDS
    requires forall r :: r in s.ingressReceipts && r.queueId == id ==> now - r.acceptedAt < INGRESS_RECEIPT_TTL_SECONDS
    ensures Keeps(s, now, id)
  {
    UnexpiredKeepsOrder(s.continuationReceipts, CONTINUATION_RECEIPT_TTL_SECONDS, now);
    UnexpiredKeepsOrder(s.ingressReceipts, INGRESS_RECEIPT_TTL_SECONDS, now);
  }

  ghost predicate SameReceiptsFor(p: State, t: State, id: QueueId) {
    && (forall r: Receipt :: r.queueId == id ==> (r in t.continuationReceipts <==> r in p.continuationReceipts))
    && (forall r: Receipt :: r.queueId == id ==> (r in t.ingressReceipts <==> r in p.ingressReceipts))
  }

  lemma QueueReceiptsFor(p: State, op: Op, now: real, id: QueueId)
    requires !id.Uuid? && !Touches(op, id) && QueueOp(op) && Mutate(p, op, now).Some?
    ensures SameReceiptsFor(p, Mutate(p, op, now).value, id)
  {
    if op.OpClaim? && (p.phase == Available || p.phase == Draining) {
      ClaimFromFrame(p, 0, ClaimLimit(op.limit), op.excluded, op.unique, now);
    }
  }

  lemma MutateReceiptsFor(p: State, op: Op, now: real, id: QueueId)
    requires !id.Uuid? && !Touches(op, id) && Mutate(p, op, now).Some?
    ensures SameReceiptsFor(p, Mutate(p, op, now).value, id)
  {
    if QueueOp(op) {
      QueueReceiptsFor(p, op, now, id);
    }
  }

  lemma MutateSameFor(p: State, op: Op, now: real, id: QueueId)
    requires Inv(p) && !id.Uuid? && !Touches(op, id) && Mutate(p, op, now).Some?
    ensures SameFor(p, Mutate(p, op, now).value, id)
  {
    MutateReceiptsFor(p, op, now, id);
    if op.OpComplete? {
      CompletedRootsFor(p, op.admissions, id);
    } else {
      RootsGrowBy(p, op, now, id);
    }
  }

  lemma CompletedRootsFor(p: State, admissions: seq<Admission>, id: QueueId)
    requires DistinctQueueIds(p.roots)
    ensures HasRoot(CompleteRoots(p, admissions), id) ==> HasRoot(p, id)
  {
    UnheldIsASubsequence(p.roots, Keys(admissions));
    var t := CompleteRoots(p, admissions);
    if HasRoot(t, id) {
      var i :| 0 <= i < |t.roots| && t.roots[i].queueId == id;
      assert t.roots[i] in p.roots;
      var j :| 0 <= j < |p.roots| && p.roots[j] == t.roots[i];
    }
  }

  lemma RootsGrowBy(p: State, op: Op, now: real, id: QueueId)
    requires !id.Uuid? && !Touches(op, id) && !op.OpComplete? && Mutate(p, op, now).Some?
    ensures HasRoot(Mutate(p, op, now).value, id) ==> HasRoot(p, id)
  {
    var t := Mutate(p, op, now).value;
    MutateExtends(p, op, now);
    if HasRoot(t, id) {
      var i :| 0 <= i < |t.roots| && t.roots[i].queueId == id;
      if i < |p.roots| {
        assert SameRoot(p.roots[i], t.roots[i]);
      } else {
        LastRootId(p, op, now);
      }
    }
  }

  lemma LastRootId(p: State, op: Op, now: real)
    requires !op.OpComplete? && Mutate(p, op, now).Some? && |Mutate(p, op, now).value.roots| > |p.roots|
    ensures var id := Mutate(p, op, now).value.roots[|p.roots|].queueId; id.Uuid? || Touches(op, id)
  {
    if op.OpClaim? && (p.phase == Available || p.phase == Draining) {
      ClaimFromFrame(p, 0, ClaimLimit(op.limit), op.excluded, op.unique, now);
    }
  }

  lemma StepSameFor(s: State, op: Op, now: real, id: QueueId)
    requires Inv(s) && !id.Uuid? && !Touches(op, id) && Keeps(s, now, id)
    ensures SameFor(s, Apply(s, op, now), id)
  {
    var p := Prune(s, now);
    PruneSameFor(s, now, id);
    assert Inv(p) by { PruneKeepsInv(s, now); }
    if Mutate(p, op, now).Some? {
      MutateSameFor(p, op, now, id);
    }
  }

  // ------------------------------------------------- what no retention is needed for

  ghost predicate RootsSay(roots: seq<Root>, id: QueueId, to: string, context: string) {
    forall i :: 0 <= i < |roots| && roots[i].queueId == id ==> roots[i].contact == to && roots[i].context == context
  }

  /** Whatever the document holds about an identity carries these texts. */
  ghost predicate Says(s: State, id: QueueId, to: string, context: string) {
    && ReceiptsSay(s.continuationReceipts, id, to, context)
    && ReceiptsSay(s.ingressReceipts, id, to, context)
    && RootsSay(s.roots, id, to, context)
  }

  /** The document has never heard of the identity, or has forgotten it. */
  ghost predicate Unheard(s: State, id: QueueId) {
    && (forall r: Receipt :: r in s.continuationReceipts ==> r.queueId != id)
    && (forall r: Receipt :: r in s.ingressReceipts ==> r.queueId != id)
    && !HasRoot(s, id)
  }

  /** The call, if it is about the identity at all, offers these texts. */
  predicate Offers(op: Op, id: QueueId, to: string, context: string) {
    && (op.OpEnqueueContinuation? && op.given == Some(id) ==> op.contact == to && op.context == context)
    && (op.OpEnqueueIngress? && Ingress(op.source) == id ==> op.contact == to && op.context == context)
  }

  lemma PruneSays(s: State, now: real, id: QueueId, to: string, context: string)
    requires Inv(s) && Says(s, id, to, context)
    ensures Says(Prune(s, now), id, to, context)
  {
    KeptReceiptsBounded(s.continuationReceipts, CONTINUATION_RECEIPT_TTL_SECONDS, MAX_CONTINUATION_RECEIPTS, now);
    KeptReceiptsBounded(s.ingressReceipts, INGRESS_RECEIPT_TTL_SECONDS, MAX_INGRESS_RECEIPTS, now);
  }

  lemma UntouchedRootsSay(p: State, op: Op, now: real, id: QueueId, to: string, context: string)
    requires Inv(p) && !id.Uuid? && !Touches(op, id) && Mutate(p, op, now).Some?
    requires RootsSay(p.roots, id, to, context)
    ensures RootsSay(Mutate(p, op, now).value.roots, id, to, context)
  {
    var t := Mutate(p, op, now).value;
    forall i | 0 <= i < |t.roots| && t.roots[i].queueId == id ensures t.roots[i].contact == to && t.roots[i].context == context {
      if op.OpComplete? {
        UnheldIsASubsequence(p.roots, Keys(op.admissions));
        assert t.roots[i] in p.roots;
      } else {
        MutateExtends(p, op, now);
        if i < |p.roots| {
          assert SameRoot(p.roots[i], t.roots[i]);
        } else {
          LastRootId(p, op, now);
        }
      }
    }
  }

  lemma ContinuationSays(p: State, id: QueueId, to: string, context: string, lease: nat, now: real)
    requires Says(p, id, to, context)
    ensures Says(ContinueAs(p, id, to, context, lease, now).0, id, to, context)
  {
  }

  lemma IngressSays(p: State, source: Source, to: string, context: string, now: real)
    requires Says(p, Ingress(source), to, context)
    ensures EnqueueIngressRoot(p, to, context, source, now).Some?
    ensures Says(EnqueueIngressRoot(p, to, context, source, now).value, Ingress(source), to, context)
  {
    var k := ReceiptIndex(p.ingressReceipts, Ingress(source));
    if k < |p.ingressReceipts| {
      assert p.ingressReceipts[k] in p.ingressReceipts;
    }
  }

  lemma MutateSays(p: State, op: Op, now: real, id: QueueId, to: string, context: string)
    requires Inv(p) && !id.Uuid? && Mutate(p, op, now).Some? && Says(p, id, to, context) && Offers(op, id, to, context)
    ensures Says(Mutate(p, op, now).value, id, to, context)
  {
    if !Touches(op, id) {
      MutateReceiptsFor(p, op, now, id);
      UntouchedRootsSay(p, op, now, id, to, context);
    } else if op.OpEnqueueContinuation? {
      ContinuationSays(p, id, to, context, op.lease, now);
    } else {
      IngressSays(p, op.source, to, context, now);
    }
  }

  /** An identity keeps its texts whatever is called and whatever is evicted. */
  lemma StepSays(s: State, op: Op, now: real, id: QueueId, to: string, context: string)
    requires Inv(s) && !id.Uuid? && Says(s, id, to, context) && Offers(op, id, to, context)
    ensures Says(Apply(s, op, now), id, to, context)
  {
    PruneSays(s, now, id, to, context);
    PruneKeepsInv(s, now);
    if Mutate(Prune(s, now), op, now).Some? {
      MutateSays(Prune(s, now), op, now, id, to, context);
    }
  }

  /** Nobody else makes the document hear of an identity. */
  lemma StepUnheard(s: State, op: Op, now: real, id: QueueId)
    requires Inv(s) && !id.Uuid? && !Touches(op, id) && Unheard(s, id)
    ensures Unheard(Apply(s, op, now), id)
  {
    StepSameFor(s, op, now, id);
  }

  /** Seen from an identity nobody touches, receipts and roots only go. */
  lemma StepAddsNothing(s: State, op: Op, now: real, id: QueueId)
    requires Inv(s) && !id.Uuid? && !Touches(op, id)
    ensures HasReceipt(Apply(s, op, now).ingressReceipts, id) ==> HasReceipt(s.ingressReceipts, id)
    ensures HasRoot(Apply(s, op, now), id) ==> HasRoot(s, id)
  {
    var p, t := Prune(s, now), Apply(s, op, now);
    PruneAddsNothing(s, now, id);
    PruneKeepsInv(s, now);
    if Mutate(p, op, now).Some? {
      MutateSameFor(p, op, now, id);
      ReceiptMembership(p.ingressReceipts, id);
      ReceiptMembership(t.ingressReceipts, id);
    }
  }

  lemma PruneAddsNothing(s: State, now: real, id: QueueId)
    requires Inv(s)
    ensures HasReceipt(Prune(s, now).ingressReceipts, id) ==> HasReceipt(s.ingressReceipts, id)
    ensures HasRoot(Prune(s, now), id) ==> HasRoot(s, id)
  {
    KeptReceiptsBounded(s.ingressReceipts, INGRESS_RECEIPT_TTL_SECONDS, MAX_INGRESS_RECEIPTS, now);
    ReceiptMembership(s.ingressReceipts, id);
    ReceiptMembership(Prune(s, now).ingressReceipts, id);
    if HasRoot(Prune(s, now), id) {
      var i :| 0 <= i < |Prune(s, now).roots| && Prune(s, now).roots[i].queueId == id;
      assert s.roots[i].queueId == id;
    }
  }

  /** An offer leaves a receipt, and appends a root unless the pruned document had
      one or a receipt for it. */
  lemma OfferLeavesAReceipt(s: State, to: string, context: string, source: Source, now: real)
    requires Inv(s) && Says(s, Ingress(source), to, context)
    ensures var op := OpEnqueueIngress(to, context, source);
            && HasReceipt(Apply(s, op, now).ingressReceipts, Ingress(source))
            && (Appends(s, op, now) || HasReceipt(s.ingressReceipts, Ingress(source)) || HasRoot(s, Ingress(source)))
  {
    var p, id := Prune(s, now), Ingress(source);
    OfferIsAccepted(s, to, context, source, now);
    PruneAddsNothing(s, now, id);
    ReceiptMembership(p.ingressReceipts, id);
    RootMembership(p, id);
    ReceiptMembership(Apply(s, OpEnqueueIngress(to, context, source), now).ingressReceipts, id);
  }

  /** An offer under the texts an identity has is never refused as a conflict. */
  lemma OfferIsAccepted(s: State, to: string, context: string, source: Source, now: real)
    requires Inv(s) && Says(s, Ingress(source), to, context)
    ensures EnqueueIngressRoot(Prune(s, now), to, context, source, now).Some?
  {
    PruneSays(s, now, Ingress(source), to, context);
    IngressSays(Prune(s, now), source, to, context, now);
  }

  /** Leases come from the supply: a spent identity never holds one again. */
  lemma {:induction false} ClaimFromFreshLeases(s: State, i: nat, budget: nat, excluded: set<string>, unique: bool, now: real)
    requires i <= |s.roots|
    ensures var t := ClaimFrom(s, i, budget, excluded, unique, now).0;
            && s.nextId <= t.nextId
            && forall id :: id in t.leases ==> id in s.leases || id >= s.nextId
    decreases |s.roots| - i
  {
    if i < |s.roots| && budget > 0 {
      if Claimable(s.phase, s.epoch, s.roots[i], excluded, now) {
        ClaimFromFreshLeases(ClaimRoot(s, i, now), i + 1, budget - 1,
                             if unique then excluded + {s.roots[i].contact} else excluded, unique, now);
      } else {
        ClaimFromFreshLeases(s, i + 1, budget, excluded, unique, now);
      }
    }
  }

  ghost predicate LeasesFromSupply(p: State, t: State) {
    p.nextId <= t.nextId && forall id :: id in t.leases ==> id in p.leases || id >= p.nextId
  }

  lemma FreshLeasesQueue(p: State, op: Op, now: real)
    requires QueueOp(op) && Mutate(p, op, now).Some?
    ensures LeasesFromSupply(p, Mutate(p, op, now).value)
  {
    if op.OpClaim? && (p.phase == Available || p.phase == Draining) {
      ClaimFromFreshLeases(p, 0, ClaimLimit(op.limit), op.excluded, op.unique, now);
    }
  }

  lemma FreshLeasesOther(p: State, op: Op, now: real)
    requires !QueueOp(op) && Mutate(p, op, now).Some?
    ensures LeasesFromSupply(p, Mutate(p, op, now).value)
  {
  }

  lemma FreshLeases(s: State, op: Op, now: real)
    ensures s.nextId <= Apply(s, op, now).nextId
    ensures forall id :: id in Apply(s, op, now).leases ==> id in s.leases || id >= s.nextId
  {
    var p := Prune(s, now);
    if Mutate(p, op, now).Some? {
      if QueueOp(op) {
        FreshLeasesQueue(p, op, now);
      } else {
        FreshLeasesOther(p, op, now);
      }
    }
  }

  // ----------------------------------------------------------- what receipts say

  ghost predicate ReceiptsSay(receipts: seq<Receipt>, id: QueueId, to: string, context: string) {
    forall r :: r in receipts && r.queueId == id ==> r.contact == to && r.context == context
  }

  lemma ReceiptMembership(receipts: seq<Receipt>, id: QueueId)
    ensures HasReceipt(receipts, id) <==> ReceiptIndex(receipts, id) < |receipts|
    ensures HasReceipt(receipts, id) <==> exists r :: r in receipts && r.queueId == id
  {
    if HasReceipt(receipts, id) {
      var i :| 0 <= i < |receipts| && receipts[i].queueId == id;
      assert receipts[i] in receipts;
    }
  }

  lemma RootMembership(s: State, id: QueueId)
    ensures HasRoot(s, id) <==> RootIndex(s.roots, id) < |s.roots|
  {
  }

  /** The same on the pruned document. */
  lemma IngressEffectPruned(p: State, to: string, context: string, source: Source, now: real)
    requires ReceiptsSay(p.ingressReceipts, Ingress(source), to, context)
    requires HasRoot(p, Ingress(source)) ==> HasReceipt(p.ingressReceipts, Ingress(source))
    ensures var id := Ingress(source);
            var r := EnqueueIngressRoot(p, to, context, source, now);
            && r.Some?
            && (|r.value.roots| > |p.roots| <==> !HasReceipt(p.ingressReceipts, id))
            && HasReceipt(r.value.ingressReceipts, id)
            && ReceiptsSay(r.value.ingressReceipts, id, to, context)
            && r.value.continuationReceipts == p.continuationReceipts
  {
    var id := Ingress(source);
    ReceiptMembership(p.ingressReceipts, id);
    RootMembership(p, id);
    var k := ReceiptIndex(p.ingressReceipts, id);
    if k < |p.ingressReceipts| {
      assert p.ingressReceipts[k] in p.ingressReceipts;
    }
    ReceiptMembership(EnqueueIngressRoot(p, to, context, source, now).value.ingressReceipts, id);
  }

  /** Offering a source record to the coordinator, seen from its receipts. */
  lemma IngressEffect(s: State, to: string, context: string, source: Source, now: real)
    requires Inv(s) && Keeps(s, now, Ingress(source))
    requires ReceiptsSay(s.ingressReceipts, Ingress(source), to, context)
    requires HasRoot(s, Ingress(source)) ==> HasReceipt(s.ingressReceipts, Ingress(source))
    ensures var op := OpEnqueueIngress(to, context, source);
            var id := Ingress(source);
            var t := Apply(s, op, now);
            && EnqueueIngressRoot(Prune(s, now), to, context, source, now).Some?
            && (Appends(s, op, now) <==> !HasReceipt(s.ingressReceipts, id))
            && HasReceipt(t.ingressReceipts, id)
            && (HasRoot(t, id) ==> HasReceipt(t.ingressReceipts, id))
            && ReceiptsSay(t.ingressReceipts, id, to, context)
            && t.continuationReceipts == Prune(s, now).continuationReceipts
  {
    var p := Prune(s, now);
    var id := Ingress(source);
    PruneSameFor(s, now, id);
    ReceiptMembership(s.ingressReceipts, id);
    ReceiptMembership(p.ingressReceipts, id);
    IngressEffectPruned(p, to, context, source, now);
  }
}
