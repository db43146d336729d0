/** The invariant of the maintenance document and the proof that every operation
    of the coordinator keeps it, at any clock value. */
module MaintenanceInvariant {
  import opened Common
  import opened MaintenanceModel

  ghost predicate DistinctQueueIds(roots: seq<Root>) {
    forall i, j :: 0 <= i < j < |roots| ==> roots[i].queueId != roots[j].queueId
  }

  /** Every identity in the document was issued before `nextId`. */
  ghost predicate Issued(s: State) {
    && (forall id :: id in s.leases ==> id < s.nextId)
    && (forall i :: 0 <= i < |s.roots| ==> RootIssued(s.roots[i], s.nextId))
  }

  ghost predicate RootIssued(r: Root, nextId: nat) {
    && (r.queueId.Uuid? ==> r.queueId.n < nextId)
    && (r.claim.Claimed? ==> r.claim.token < nextId && r.claim.lease < nextId)
    && (r.transfer.Some? ==> r.transfer.value.lease < nextId)
  }

  /** No two claims share a lease or a token. */
  ghost predicate ExclusiveClaims(roots: seq<Root>) {
    forall i, j :: 0 <= i < j < |roots| && roots[i].claim.Claimed? && roots[j].claim.Claimed? ==>
      roots[i].claim.lease != roots[j].claim.lease && roots[i].claim.token != roots[j].claim.token
  }

  /** A lease that was handed over to a continuation is gone for good. */
  ghost predicate TransfersSpent(s: State) {
    forall i :: 0 <= i < |s.roots| && s.roots[i].transfer.Some? ==>
      s.roots[i].transfer.value.lease !in s.leases
  }

  predicate BehindFence(s: State, admittedEpoch: nat) {
    if s.phase == Available then admittedEpoch <= s.epoch else admittedEpoch < s.epoch
  }

  /** Whatever may still run was admitted before the current fence. */
  ghost predicate Fenced(s: State) {
    && (s.phase != Available ==> s.epoch > 0)
    && (forall id :: id in s.leases ==> BehindFence(s, s.leases[id].admittedEpoch))
    && (forall i :: 0 <= i < |s.roots| && s.roots[i].transfer.Some? ==>
          BehindFence(s, s.roots[i].transfer.value.admittedEpoch))
  }

  /** A continuation's live claim runs under the lineage it was handed. */
  ghost predicate LineageKept(s: State) {
    forall i :: 0 <= i < |s.roots| ==> RootLineageKept(s.roots[i], s.leases)
  }

  ghost predicate RootLineageKept(r: Root, leases: map<nat, Lease>) {
    r.claim.Claimed? && r.claim.lease in leases && r.transfer.Some? ==>
      && leases[r.claim.lease].lineage == r.transfer.value.lineage
      && leases[r.claim.lease].admittedEpoch == r.transfer.value.admittedEpoch
  }

  ghost predicate NothingClaimed(roots: seq<Root>) {
    forall i :: 0 <= i < |roots| ==> roots[i].claim == Unclaimed
  }

  /** `safe_to_stop` is never set while anything runs or waits to continue. */
  ghost predicate Quiescent(s: State) {
    && s.phase == Draining
    && s.leases == map[]
    && NothingClaimed(s.roots)
    && !AnyPendingContinuation(s.roots)
  }

  ghost predicate DistinctReceipts(receipts: seq<Receipt>) {
    forall i, j :: 0 <= i < j < |receipts| ==> receipts[i].queueId != receipts[j].queueId
  }

  /** A drawn identity has its receipt only once it was drawn. */
  ghost predicate ReceiptsIssued(receipts: seq<Receipt>, nextId: nat) {
    forall r :: r in receipts && r.queueId.Uuid? ==> r.queueId.n < nextId
  }

  ghost predicate ReceiptsBounded(s: State) {
    && DistinctReceipts(s.ingressReceipts)
    && DistinctReceipts(s.continuationReceipts)
    && |s.ingressReceipts| <= MAX_INGRESS_RECEIPTS + 1
    && |s.continuationReceipts| <= MAX_CONTINUATION_RECEIPTS + 1
  }

  ghost predicate Inv(s: State) {
    && DistinctQueueIds(s.roots)
    && Issued(s)
    && ExclusiveClaims(s.roots)
    && TransfersSpent(s)
    && Fenced(s)
    && LineageKept(s)
    && (s.safeToStop ==> Quiescent(s))
    && ReceiptsBounded(s)
    && ReceiptsIssued(s.continuationReceipts, s.nextId)
  }

  // ------------------------------------------------------------------- receipts

  lemma {:induction false} UnexpiredKeepsOrder(receipts: seq<Receipt>, ttl: real, now: real)
    requires DistinctReceipts(receipts)
    ensures DistinctReceipts(Unexpired(receipts, ttl, now))
    ensures |Unexpired(receipts, ttl, now)| <= |receipts|
    ensures forall r :: r in Unexpired(receipts, ttl, now) <==> r in receipts && now - r.acceptedAt < ttl
  {
    if receipts != [] {
      var rest := receipts[1..];
      assert forall i :: 0 <= i < |rest| ==> rest[i] == receipts[i + 1];
      UnexpiredKeepsOrder(rest, ttl, now);
      var kept := Unexpired(rest, ttl, now);
      assert forall r :: r in receipts <==> r == receipts[0] || r in rest;
      forall i | 0 <= i < |kept| ensures kept[i].queueId != receipts[0].queueId {
        assert kept[i] in rest;
      }
    }
  }

  lemma DropKeepsDistinct(receipts: seq<Receipt>, k: nat)
    requires k < |receipts| && DistinctReceipts(receipts)
    ensures DistinctReceipts(DropAt(receipts, k))
    ensures forall r :: r in DropAt(receipts, k) <==> r in receipts && r != receipts[k]
  {
    var out := DropAt(receipts, k);
    assert forall i :: 0 <= i < |out| ==> out[i] == if i < k then receipts[i] else receipts[i + 1];
    forall r | r in receipts && r != receipts[k] ensures r in out {
      var i :| 0 <= i < |receipts| && receipts[i] == r;
      assert out[if i < k then i else i - 1] == r;
    }
  }

  /** Eviction by count keeps exactly `limit` receipts, and what it drops was
      accepted no later than anything it keeps. */
  lemma {:induction false} NewestKeepsTheLatest(receipts: seq<Receipt>, limit: nat)
    requires DistinctReceipts(receipts)
    ensures DistinctReceipts(Newest(receipts, limit))
    ensures |Newest(receipts, limit)| == if |receipts| <= limit then |receipts| else limit
    ensures forall r :: r in Newest(receipts, limit) ==> r in receipts
    ensures forall dropped, kept | dropped in receipts && dropped !in Newest(receipts, limit) && kept in Newest(receipts, limit) ::
              dropped.acceptedAt <= kept.acceptedAt
    decreases |receipts|
  {
    if |receipts| > limit {
      var k := Oldest(receipts);
      var rest := DropAt(receipts, k);
      DropKeepsDistinct(receipts, k);
      NewestKeepsTheLatest(rest, limit);
      forall kept | kept in Newest(rest, limit) ensures receipts[k].acceptedAt <= kept.acceptedAt {
        assert kept in receipts;
      }
    }
  }

  /** A receipt outlives a prune unless its age reached the limit or the full
      complement of receipts accepted no earlier than it is kept instead. */
  lemma ReceiptRetention(receipts: seq<Receipt>, ttl: real, limit: nat, now: real, r: Receipt)
    requires DistinctReceipts(receipts) && r in receipts
    ensures DistinctReceipts(KeptReceipts(receipts, ttl, limit, now))
    ensures |KeptReceipts(receipts, ttl, limit, now)| <= limit
    ensures r !in KeptReceipts(receipts, ttl, limit, now) ==>
              || now - r.acceptedAt >= ttl
              || (&& |KeptReceipts(receipts, ttl, limit, now)| == limit
                  && forall kept :: kept in KeptReceipts(receipts, ttl, limit, now) ==>
                       r.acceptedAt <= kept.acceptedAt)
  {
    UnexpiredKeepsOrder(receipts, ttl, now);
    NewestKeepsTheLatest(Unexpired(receipts, ttl, now), limit);
  }

  lemma KeptReceiptsBounded(receipts: seq<Receipt>, ttl: real, limit: nat, now: real)
    requires DistinctReceipts(receipts)
    ensures DistinctReceipts(KeptReceipts(receipts, ttl, limit, now))
    ensures |KeptReceipts(receipts, ttl, limit, now)| <= limit
    ensures forall r :: r in KeptReceipts(receipts, ttl, limit, now) ==> r in receipts
  {
    UnexpiredKeepsOrder(receipts, ttl, now);
    NewestKeepsTheLatest(Unexpired(receipts, ttl, now), limit);
  }

  lemma AppendReceipt(receipts: seq<Receipt>, r: Receipt)
    requires DistinctReceipts(receipts)
    requires ReceiptIndex(receipts, r.queueId) == |receipts|
    ensures DistinctReceipts(receipts + [r])
  {
  }

  // -------------------------------------------------------------------- pruning

  /** After a prune the document is tidy as well as invariant: the receipt bounds
      are met and a root is claimed only under a live lease. */
  ghost predicate Pruned(s: State, now: real) {
    && Inv(s)
    && |s.ingressReceipts| <= MAX_INGRESS_RECEIPTS
    && |s.continuationReceipts| <= MAX_CONTINUATION_RECEIPTS
    && (forall id :: id in s.leases ==> s.leases[id].expiresAt > now)
    && (forall i :: 0 <= i < |s.roots| && s.roots[i].claim.Claimed? ==>
          s.roots[i].claim.lease in s.leases && s.roots[i].claim.until > now)
  }

  /** Dropping leases and claims, trimming receipts and reopening an expired drain
      keep the invariant. */
  lemma TidyingKeepsInv(s: State, p: State)
    requires Inv(s) && ReceiptsBounded(p) && ReceiptsIssued(p.continuationReceipts, p.nextId)
    requires p.nextId == s.nextId && p.epoch == s.epoch && (p.phase == s.phase || p.phase == Available)
    requires p.safeToStop ==> s.safeToStop && p.phase == s.phase
    requires |p.roots| == |s.roots|
    requires forall i :: 0 <= i < |s.roots| ==> p.roots[i] == s.roots[i] || p.roots[i] == s.roots[i].(claim := Unclaimed)
    requires forall id :: id in p.leases ==> id in s.leases && p.leases[id] == s.leases[id]
    ensures Inv(p)
  {
    forall i | 0 <= i < |p.roots| ensures RootIssued(p.roots[i], p.nextId) && RootLineageKept(p.roots[i], p.leases) {
      assert RootIssued(s.roots[i], s.nextId) && RootLineageKept(s.roots[i], s.leases);
    }
  }

  lemma PruneKeepsInv(s: State, now: real)
    requires Inv(s)
    ensures Pruned(Prune(s, now), now)
  {
    var p := Prune(s, now);
    KeptReceiptsBounded(s.continuationReceipts, CONTINUATION_RECEIPT_TTL_SECONDS, MAX_CONTINUATION_RECEIPTS, now);
    KeptReceiptsBounded(s.ingressReceipts, INGRESS_RECEIPT_TTL_SECONDS, MAX_INGRESS_RECEIPTS, now);
    assert Inv(p) by { TidyingKeepsInv(s, p); }
  }

  /** After each prune a root is claimed exactly when its lease lives and its
      claim has not run out. */
  lemma ClaimedExactlyWhenLive(s: State, now: real, i: nat)
    requires i < |s.roots|
    ensures Prune(s, now).roots[i].claim.Claimed? <==>
            && s.roots[i].claim.Claimed?
            && s.roots[i].claim.lease in s.leases
            && s.leases[s.roots[i].claim.lease].expiresAt > now
            && s.roots[i].claim.until > now
    ensures Prune(s, now).roots[i].claim.Claimed? ==> Prune(s, now).roots[i] == s.roots[i]
  {
  }

  // ------------------------------------------------------------------- claiming

  lemma ClaimRootKeepsInv(s: State, i: nat, now: real)
    requires Inv(s) && i < |s.roots| && s.roots[i].claim == Unclaimed
    requires s.phase == Available || (s.roots[i].transfer.Some? && s.roots[i].transfer.value.admittedEpoch < s.epoch)
    ensures Inv(ClaimRoot(s, i, now))
    ensures ClaimRoot(s, i, now).phase == s.phase && ClaimRoot(s, i, now).epoch == s.epoch
  {
    var t := ClaimRoot(s, i, now);
    assert forall j :: 0 <= j < |s.roots| && j != i ==> t.roots[j] == s.roots[j];
    assert RootIssued(s.roots[i], s.nextId);
    forall j | 0 <= j < |t.roots| ensures RootIssued(t.roots[j], t.nextId) {
      assert RootIssued(s.roots[j], s.nextId);
    }
    forall j | 0 <= j < |t.roots| && j != i && t.roots[j].claim.Claimed?
      ensures t.roots[j].claim.lease < s.nextId && t.roots[j].claim.token < s.nextId
    {
      assert RootIssued(s.roots[j], s.nextId);
    }
    forall j | 0 <= j < |t.roots| && t.roots[j].transfer.Some?
      ensures t.roots[j].transfer.value.lease !in t.leases
    {
      assert RootIssued(s.roots[j], s.nextId);
    }
    forall j | 0 <= j < |t.roots| ensures RootLineageKept(t.roots[j], t.leases) {
      assert RootLineageKept(s.roots[j], s.leases);
    }
  }

  lemma {:induction false} ClaimFromKeepsInv(s: State, i: nat, budget: nat, excluded: set<string>, unique: bool, now: real)
    requires Inv(s) && i <= |s.roots| && (s.phase == Available || s.phase == Draining)
    ensures Inv(ClaimFrom(s, i, budget, excluded, unique, now).0)
    decreases |s.roots| - i
  {
    if i < |s.roots| && budget > 0 {
      if Claimable(s.phase, s.epoch, s.roots[i], excluded, now) {
        ClaimRootKeepsInv(s, i, now);
        ClaimFromKeepsInv(ClaimRoot(s, i, now), i + 1, budget - 1,
                          if unique then excluded + {s.roots[i].contact} else excluded, unique, now);
      } else {
        ClaimFromKeepsInv(s, i + 1, budget, excluded, unique, now);
      }
    }
  }

  // ------------------------------------------------------------------ enqueuing

  lemma AppendRootKeepsInv(s: State, r: Root)
    requires Inv(s)
    requires forall i :: 0 <= i < |s.roots| ==> s.roots[i].queueId != r.queueId
    requires r.claim == Unclaimed && RootIssued(r, s.nextId)
    requires r.transfer.Some? ==>
               !s.safeToStop && r.transfer.value.lease !in s.leases && BehindFence(s, r.transfer.value.admittedEpoch)
    ensures Inv(s.(roots := s.roots + [r]))
  {
    var t := s.(roots := s.roots + [r]);
    assert forall i :: 0 <= i < |s.roots| ==> t.roots[i] == s.roots[i];
  }

  lemma IssueRootKeepsInv(p: State, contact: string, context: string, now: real)
    requires Inv(p)
    ensures Inv(p.(roots := p.roots + [FreshRoot(p, Uuid(p.nextId), contact, context, None, now)],
                   nextId := p.nextId + 1))
  {
    IssueKeepsInv(p);
    var q := p.(nextId := p.nextId + 1);
    var root := FreshRoot(p, Uuid(p.nextId), contact, context, None, now);
    forall i | 0 <= i < |p.roots| ensures p.roots[i].queueId != root.queueId {
      assert RootIssued(p.roots[i], p.nextId);
    }
    AppendRootKeepsInv(q, root);
    assert q.(roots := q.roots + [root]) == p.(roots := p.roots + [root], nextId := p.nextId + 1);
  }

  lemma EnqueueRootKeepsInv(p: State, contact: string, context: string, admit: bool, now: real)
    requires Inv(p)
    ensures Inv(EnqueueRoot(p, contact, context, admit, now).0)
  {
    IssueRootKeepsInv(p, contact, context, now);
    var root := FreshRoot(p, Uuid(p.nextId), contact, context, None, now);
    var queued := p.(roots := p.roots + [root], nextId := p.nextId + 1);
    if p.phase == Available && admit {
      assert queued.roots[|p.roots|] == root;
      ClaimRootKeepsInv(queued, |p.roots|, now);
    }
  }

  lemma IssueKeepsInv(s: State)
    requires Inv(s)
    ensures Inv(s.(nextId := s.nextId + 1))
  {
    var t := s.(nextId := s.nextId + 1);
    forall i | 0 <= i < |t.roots| ensures RootIssued(t.roots[i], t.nextId) {
      assert RootIssued(s.roots[i], s.nextId);
    }
  }

  lemma EnqueueIngressKeepsInv(p: State, contact: string, context: string, source: Source, now: real)
    requires Inv(p) && |p.ingressReceipts| <= MAX_INGRESS_RECEIPTS
    ensures var r := EnqueueIngressRoot(p, contact, context, source, now); r.Some? ==> Inv(r.value)
  {
    var id := Ingress(source);
    var k := ReceiptIndex(p.ingressReceipts, id);
    var j := RootIndex(p.roots, id);
    if k == |p.ingressReceipts| && j == |p.roots| {
      AppendReceipt(p.ingressReceipts, Receipt(id, contact, context, now));
      AppendRootKeepsInv(p, FreshRoot(p, id, contact, context, None, now));
    }
  }

  /** The hand-over step: a live lease turns into a pending continuation. */
  lemma HandOverKeepsInv(q: State, id: QueueId, contact: string, context: string, lease: nat, now: real)
    requires Inv(q) && lease in q.leases
    requires id.Uuid? ==> id.n < q.nextId
    requires ReceiptIndex(q.continuationReceipts, id) == |q.continuationReceipts|
    requires RootIndex(q.roots, id) == |q.roots|
    requires |q.continuationReceipts| <= MAX_CONTINUATION_RECEIPTS
    ensures var transfer := Transfer(q.leases[lease].admittedEpoch, q.leases[lease].lineage, lease);
            Inv(q.(
                roots := q.roots + [FreshRoot(q, id, contact, context, Some(transfer), now)],
                leases := q.leases - {lease},
                continuationReceipts := q.continuationReceipts + [Receipt(id, contact, context, now)],
                safeToStop := false))
  {
    var transfer := Transfer(q.leases[lease].admittedEpoch, q.leases[lease].lineage, lease);
    var unsafe := q.(safeToStop := false);
    assert Inv(unsafe);
    DropLeasesKeepsInv(unsafe, {lease});
    var dropped := unsafe.(leases := q.leases - {lease});
    var root := FreshRoot(q, id, contact, context, Some(transfer), now);
    AppendRootKeepsInv(dropped, root);
    AppendReceipt(q.continuationReceipts, Receipt(id, contact, context, now));
    var appended := dropped.(roots := q.roots + [root]);
    KeepsInvWithReceipts(appended, q.continuationReceipts + [Receipt(id, contact, context, now)]);
  }

  lemma KeepsInvWithReceipts(s: State, receipts: seq<Receipt>)
    requires Inv(s) && DistinctReceipts(receipts) && |receipts| <= MAX_CONTINUATION_RECEIPTS + 1
    requires ReceiptsIssued(receipts, s.nextId)
    ensures Inv(s.(continuationReceipts := receipts))
  {
  }

  lemma ContinueAsKeepsInv(q: State, id: QueueId, contact: string, context: string, lease: nat, now: real)
    requires Inv(q) && |q.continuationReceipts| <= MAX_CONTINUATION_RECEIPTS
    requires id.Uuid? ==> id.n < q.nextId
    ensures Inv(ContinueAs(q, id, contact, context, lease, now).0)
  {
    var k := ReceiptIndex(q.continuationReceipts, id);
    var j := RootIndex(q.roots, id);
    if k == |q.continuationReceipts| && j < |q.roots| {
      AppendReceipt(q.continuationReceipts, Receipt(id, contact, context, q.roots[j].enqueuedAt));
      KeepsInvWithReceipts(q, q.continuationReceipts + [Receipt(id, contact, context, q.roots[j].enqueuedAt)]);
    } else if k == |q.continuationReceipts| && lease in q.leases {
      HandOverKeepsInv(q, id, contact, context, lease, now);
    }
  }

  lemma EnqueueContinuationKeepsInv(p: State, contact: string, context: string, lease: nat,
                                    given: Option<QueueId>, now: real)
    requires Inv(p) && |p.continuationReceipts| <= MAX_CONTINUATION_RECEIPTS
    requires given.Some? && given.value.Uuid? ==> given.value.n < p.nextId
    ensures Inv(EnqueueContinuation(p, contact, context, lease, given, now).0)
  {
    if given.Some? {
      ContinueAsKeepsInv(p, given.value, contact, context, lease, now);
    } else {
      IssueKeepsInv(p);
      ContinueAsKeepsInv(p.(nextId := p.nextId + 1), Uuid(p.nextId), contact, context, lease, now);
    }
  }

  // --------------------------------------------------------------------- leases

  lemma DropLeasesKeepsInv(s: State, gone: set<nat>)
    requires Inv(s)
    ensures Inv(s.(leases := s.leases - gone))
  {
    var t := s.(leases := s.leases - gone);
    forall i | 0 <= i < |t.roots| ensures RootLineageKept(t.roots[i], t.leases) {
      assert RootLineageKept(s.roots[i], s.leases);
    }
  }

  lemma HeartbeatKeepsInv(p: State, lease: nat, ttl: real, now: real)
    requires Inv(p)
    ensures Inv(Heartbeat(p, lease, ttl, now).0)
  {
    var t := Heartbeat(p, lease, ttl, now).0;
    if lease in p.leases {
      assert forall i :: 0 <= i < |p.roots| ==> t.roots[i] == BeatRoot(p.roots[i], lease, now);
      forall i | 0 <= i < |t.roots| ensures RootIssued(t.roots[i], t.nextId) && RootLineageKept(t.roots[i], t.leases) {
        assert RootIssued(p.roots[i], p.nextId) && RootLineageKept(p.roots[i], p.leases);
      }
    }
  }

  lemma AddLeaseKeepsInv(s: State, kind: string, lineage: Option<nat>, parent: Option<nat>,
                         admittedEpoch: nat, ttl: real, now: real)
    requires Inv(s) && BehindFence(s, admittedEpoch)
    ensures Inv(AddLease(s, kind, lineage, parent, admittedEpoch, ttl, now).0)
  {
    var t := AddLease(s, kind, lineage, parent, admittedEpoch, ttl, now).0;
    forall i | 0 <= i < |t.roots| ensures RootIssued(t.roots[i], t.nextId) && RootLineageKept(t.roots[i], t.leases) {
      assert RootIssued(s.roots[i], s.nextId) && RootLineageKept(s.roots[i], s.leases);
    }
    forall i | 0 <= i < |t.roots| && t.roots[i].transfer.Some?
      ensures t.roots[i].transfer.value.lease !in t.leases
    {
      assert RootIssued(s.roots[i], s.nextId);
    }
  }

  // ----------------------------------------------------------------- settlement

  /** Settling drops leases and only ever releases claims. */
  ghost predicate OnlyReleases(before: seq<Root>, after: seq<Root>) {
    && |after| == |before|
    && forall i :: 0 <= i < |before| ==>
         && after[i].queueId == before[i].queueId
         && after[i].transfer == before[i].transfer
         && (after[i].claim == before[i].claim || (before[i].claim.Claimed? && after[i].claim == Unclaimed))
  }

  lemma ReleasesKeepInv(s: State, gone: set<nat>, roots: seq<Root>)
    requires Inv(s) && OnlyReleases(s.roots, roots)
    ensures Inv(s.(leases := s.leases - gone, roots := roots))
  {
    DropLeasesKeepsInv(s, gone);
    var d := s.(leases := s.leases - gone);
    var t := d.(roots := roots);
    forall i | 0 <= i < |t.roots| ensures RootIssued(t.roots[i], t.nextId) && RootLineageKept(t.roots[i], t.leases) {
      assert RootIssued(d.roots[i], d.nextId) && RootLineageKept(d.roots[i], d.leases);
    }
  }

  lemma {:induction false} UnheldIsASubsequence(roots: seq<Root>, keys: map<QueueId, (nat, nat)>)
    requires DistinctQueueIds(roots)
    ensures DistinctQueueIds(Unheld(roots, keys))
    ensures forall r :: r in Unheld(roots, keys) <==> r in roots && !Holds(r, keys)
  {
    if roots != [] {
      var rest := roots[1..];
      assert forall i :: 0 <= i < |rest| ==> rest[i] == roots[i + 1];
      UnheldIsASubsequence(rest, keys);
      assert forall r :: r in roots <==> r == roots[0] || r in rest;
      var kept := Unheld(rest, keys);
      forall i | 0 <= i < |kept| ensures kept[i].queueId != roots[0].queueId {
        assert kept[i] in rest;
      }
    }
  }

  lemma {:induction false} UnheldKeepsClaimsExclusive(roots: seq<Root>, keys: map<QueueId, (nat, nat)>)
    requires ExclusiveClaims(roots) && DistinctQueueIds(roots)
    ensures ExclusiveClaims(Unheld(roots, keys))
  {
    if roots != [] {
      var rest := roots[1..];
      assert forall i :: 0 <= i < |rest| ==> rest[i] == roots[i + 1];
      UnheldKeepsClaimsExclusive(rest, keys);
      UnheldIsASubsequence(rest, keys);
      var kept := Unheld(rest, keys);
      forall i | 0 <= i < |kept| && kept[i].claim.Claimed? && roots[0].claim.Claimed?
        ensures kept[i].claim.lease != roots[0].claim.lease && kept[i].claim.token != roots[0].claim.token
      {
        assert kept[i] in rest;
      }
    }
  }

  lemma CompleteKeepsInv(p: State, admissions: seq<Admission>)
    requires Inv(p)
    ensures Inv(CompleteRoots(p, admissions))
  {
    var keys := Keys(admissions);
    var gone := HeldLeases(p.roots, keys);
    DropLeasesKeepsInv(p, gone);
    UnheldIsASubsequence(p.roots, keys);
    UnheldKeepsClaimsExclusive(p.roots, keys);
    var d := p.(leases := p.leases - gone);
    var t := CompleteRoots(p, admissions);
    assert t == d.(roots := Unheld(p.roots, keys));
    forall i | 0 <= i < |t.roots| ensures exists k :: 0 <= k < |d.roots| && d.roots[k] == t.roots[i] {
      assert t.roots[i] in p.roots;
    }
  }

  // ------------------------------------------------------------- the main result

  lemma AcquireKeepsInv(p: State, kind: string, parent: Option<ActivityToken>, ttl: real, now: real)
    requires Inv(p)
    ensures Inv(AcquireActivity(p, kind, parent, ttl, now).0)
  {
    var lineage := if parent.Some? then Some(parent.value.lineage) else None;
    var parentId := if parent.Some? then Some(parent.value.leaseId) else None;
    if p.phase == Available {
      AddLeaseKeepsInv(p, kind, lineage, parentId, p.epoch, ttl, now);
    } else if parent.Some? && parent.value.admittedEpoch < p.epoch {
      AddLeaseKeepsInv(p, kind, lineage, parentId, parent.value.admittedEpoch, ttl, now);
    }
  }

  lemma AdoptKeepsInv(p: State, kind: string, startedAt: real, ttl: real, now: real)
    requires Inv(p)
    ensures Inv(AdoptPrefenceActivity(p, kind, startedAt, ttl, now).0)
  {
    if p.phase == Available {
      AddLeaseKeepsInv(p, kind, None, None, p.epoch, ttl, now);
    } else {
      AddLeaseKeepsInv(p, kind, None, None, p.epoch - 1, ttl, now);
    }
  }

  lemma LifecycleKeepsInv(p: State, op: Op, now: real)
    requires Pruned(p, now)
    requires op.OpRequestDrain? || op.OpCancelDrain? || op.OpTransition? || op.OpAcknowledge?
    ensures var r := Mutate(p, op, now); r.Some? ==> Inv(r.value)
  {
    var r := Mutate(p, op, now);
    if r.Some? {
      IssueKeepsInv(p);
      assert r.value.roots == p.roots && r.value.leases == p.leases;
      assert forall i :: 0 <= i < |p.roots| ==> RootIssued(p.roots[i], r.value.nextId);
    }
  }

  lemma MutateKeepsInv(p: State, op: Op, now: real)
    requires Pruned(p, now) && Genuine(p, op)
    ensures var r := Mutate(p, op, now); r.Some? ==> Inv(r.value)
  {
    match op
    case OpEnqueueRoot(contact, context, admit) => EnqueueRootKeepsInv(p, contact, context, admit, now);
    case OpEnqueueIngress(contact, context, source) => EnqueueIngressKeepsInv(p, contact, context, source, now);
    case OpClaim(limit, excluded, unique) =>
      if p.phase == Available || p.phase == Draining {
        ClaimFromKeepsInv(p, 0, ClaimLimit(limit), excluded, unique, now);
      }
    case OpEnqueueContinuation(contact, context, lease, given) =>
      EnqueueContinuationKeepsInv(p, contact, context, lease, given, now);
    case OpHeartbeat(lease, ttl) => HeartbeatKeepsInv(p, lease, ttl, now);
    case OpAcquire(kind, parent, ttl) => AcquireKeepsInv(p, kind, parent, ttl, now);
    case OpAdopt(kind, startedAt, ttl) => AdoptKeepsInv(p, kind, startedAt, ttl, now);
    case OpRelease(lease) => DropLeasesKeepsInv(p, {lease});
    case OpComplete(admissions) => CompleteKeepsInv(p, admissions);
    case OpRetry(admissions, delay) =>
      ReleasesKeepInv(p, HeldLeases(p.roots, Keys(admissions)), RetryHeld(p.roots, Keys(admissions), delay, now));
    case OpDefer(admissions) =>
      ReleasesKeepInv(p, HeldLeases(p.roots, Keys(admissions)), DeferHeld(p.roots, Keys(admissions)));
    case OpRead =>
    case _ => LifecycleKeepsInv(p, op, now);
  }

  /** Every transaction keeps the invariant, whatever the clock says. */
  lemma ApplyKeepsInv(s: State, op: Op, now: real)
    requires Inv(s) && Genuine(s, op)
    ensures Inv(Apply(s, op, now))
  {
    PruneKeepsInv(s, now);
    GenuineAfterPrune(s, op, now);
    MutateKeepsInv(Prune(s, now), op, now);
  }

  lemma GenuineAfterPrune(s: State, op: Op, now: real)
    requires Genuine(s, op)
    ensures Genuine(Prune(s, now), op)
  {
  }

  lemma DefaultStateInv()
    ensures Inv(DEFAULT_STATE)
  {
  }
}
