/** What each call of the coordinator promises its caller, said of the document before and
    after it without the functions that compute it: what is stored, claimed, extended,
    given up or refused, and that nothing else changes. */
module MaintenanceEffects {
  import opened Common
  import opened MaintenanceModel
  import opened MaintenanceInvariant

  // ------------------------------------------------------------------- tidying

  ghost predicate ReceiptsKept(before: seq<Receipt>, after: seq<Receipt>, ttl: real, limit: nat, now: real) {
    && |after| <= limit
    && (forall r :: r in after ==> r in before && now - r.acceptedAt < ttl)
    && (forall r :: r in before && r !in after && now - r.acceptedAt < ttl ==>
          |after| == limit && forall k :: k in after ==> r.acceptedAt <= k.acceptedAt)
  }

  predicate StillClaimed(s: State, r: Root, now: real) {
    && r.claim.Claimed? && r.claim.until > now
    && r.claim.lease in s.leases && s.leases[r.claim.lease].expiresAt > now
  }

  predicate DrainExpired(s: State, now: real) {
    s.phase == Draining && 0.0 < s.deadlineAt <= now
  }

  /** What every call does first: leases, receipts, claims and a drain past their time go. */
  ghost predicate Tidied(s: State, p: State, now: real) {
    && p == s.(phase := p.phase, safeToStop := p.safeToStop, lastOutcome := p.lastOutcome, leases := p.leases,
               roots := p.roots, continuationReceipts := p.continuationReceipts, ingressReceipts := p.ingressReceipts)
    && p.phase == (if DrainExpired(s, now) then Available else s.phase)
    && p.lastOutcome == (if DrainExpired(s, now) then DeadlineExpired else s.lastOutcome)
    && (p.safeToStop <==> p.phase == Draining && s.safeToStop && p.leases == map[])
    && ClaimsTidied(s, p, now)
    && ReceiptsKept(s.continuationReceipts, p.continuationReceipts, 604_800.0, 2_000, now)
    && ReceiptsKept(s.ingressReceipts, p.ingressReceipts, 604_800.0, 5_000, now)
  }

  ghost predicate ClaimsTidied(s: State, p: State, now: real) {
    && (forall id :: id in p.leases <==> id in s.leases && s.leases[id].expiresAt > now)
    && (forall id :: id in p.leases ==> p.leases[id] == s.leases[id])
    && |p.roots| == |s.roots|
    && (forall i :: 0 <= i < |s.roots| ==>
          p.roots[i] == if StillClaimed(s, s.roots[i], now) then s.roots[i] else s.roots[i].(claim := Unclaimed))
  }

  lemma ClaimsAreTidied(s: State, now: real)
    ensures ClaimsTidied(s, Prune(s, now), now)
  {
  }

  lemma ReceiptsAreKept(receipts: seq<Receipt>, ttl: real, limit: nat, now: real)
    requires DistinctReceipts(receipts)
    ensures ReceiptsKept(receipts, KeptReceipts(receipts, ttl, limit, now), ttl, limit, now)
  {
    UnexpiredKeepsOrder(receipts, ttl, now);
    NewestKeepsTheLatest(Unexpired(receipts, ttl, now), limit);
  }

  lemma PruneTidies(s: State, now: real)
    requires Inv(s)
    ensures Tidied(s, Prune(s, now), now)
  {
    ClaimsAreTidied(s, now);
    ReceiptsAreKept(s.continuationReceipts, 604_800.0, 2_000, now);
    ReceiptsAreKept(s.ingressReceipts, 604_800.0, 5_000, now);
  }

  // -------------------------------------------------------------------- intake

  /** The admission carries the root's identity and texts and names its claim, made now
      under a lease of its own. */
  predicate AdmittedNow(t: State, r: Root, a: Admission, now: real) {
    && a.queueId == r.queueId && a.contact == r.contact && a.context == r.context
    && r.claim == Claimed(a.token, now + 120.0, a.activity.leaseId)
    && a.activity.leaseId in t.leases
    && var lease := t.leases[a.activity.leaseId];
       && lease.kind == "manager_root" && lease.expiresAt == now + 90.0
       && a.activity.lineage == lease.lineage && a.activity.admittedEpoch == lease.admittedEpoch
       && match r.transfer
          case Some(from) =>
            lease.lineage == from.lineage && lease.admittedEpoch == from.admittedEpoch && lease.parent == Some(from.lease)
          case None => lease.admittedEpoch == t.epoch && lease.parent == None
  }

  predicate FreshlyQueued(p: State, r: Root, contact: string, context: string, now: real) {
    && r.contact == contact && r.context == context && r.enqueuedAt == now && r.enqueuedEpoch == p.epoch
    && r.attempts == 0 && r.notBefore == 0.0
    && forall other :: other in p.roots ==> other.queueId != r.queueId
  }

  /** Submitting stores exactly one root, last in the queue, and admits it at once exactly
      when the fence is down and the caller has room. */
  predicate RootStored(p: State, t: State, contact: string, context: string, admit: bool, now: real,
                       admission: Option<Admission>) {
    && t == p.(roots := t.roots, leases := t.leases, nextId := t.nextId, safeToStop := t.safeToStop)
    && |t.roots| == |p.roots| + 1 && t.roots[..|p.roots|] == p.roots
    && var r := t.roots[|p.roots|];
       && FreshlyQueued(p, r, contact, context, now) && r.transfer == None
       && (r.claim.Claimed? <==> p.phase == Available && admit) && (admission.Some? <==> p.phase == Available && admit)
       && match admission
          case None => t.leases == p.leases && t.safeToStop == p.safeToStop
          case Some(a) =>
            && AdmittedNow(t, r, a, now) && a.activity.leaseId !in p.leases && !t.safeToStop
            && t.leases == p.leases[a.activity.leaseId := t.leases[a.activity.leaseId]]
  }

  lemma SubmitStores(p: State, contact: string, context: string, admit: bool, now: real)
    requires Inv(p)
    ensures var out := EnqueueRoot(p, contact, context, admit, now);
            && Mutate(p, OpEnqueueRoot(contact, context, admit), now) == Some(out.0)
            && RootStored(p, out.0, contact, context, admit, now, out.1)
  {
    forall other | other in p.roots ensures other.queueId != Uuid(p.nextId) {
      var i :| 0 <= i < |p.roots| && p.roots[i] == other;
      assert RootIssued(p.roots[i], p.nextId);
    }
    assert EnqueueRoot(p, contact, context, admit, now).0.roots[..|p.roots|] == p.roots;
  }

  predicate Says(r: Receipt, id: QueueId, contact: string, context: string) {
    r.queueId == id && r.contact == contact && r.context == context
  }

  ghost predicate Receipted(receipts: seq<Receipt>, id: QueueId) {
    exists r :: r in receipts && r.queueId == id
  }

  ghost predicate Waiting(roots: seq<Root>, id: QueueId) {
    exists r :: r in roots && r.queueId == id
  }

  ghost predicate SameTexts(p: State, receipts: seq<Receipt>, id: QueueId, contact: string, context: string) {
    if Receipted(receipts, id) then exists r :: r in receipts && Says(r, id, contact, context)
    else exists r :: r in p.roots && r.queueId == id && r.contact == contact && r.context == context
  }

  /** A root queued under this identity gets the receipt it lacks, dated as it was queued. */
  ghost predicate ReceiptCaughtUp(p: State, before: seq<Receipt>, after: seq<Receipt>, id: QueueId, contact: string,
                                  context: string) {
    exists r :: r in p.roots && r.queueId == id && after == before + [Receipt(id, contact, context, r.enqueuedAt)]
  }

  /** Accepting a source identity: known ones are recognised by their texts or refused, an
      unknown one is queued once with its receipt. */
  ghost predicate IngressTaken(p: State, t: State, accepted: bool, contact: string, context: string, source: Source,
                               now: real) {
    var id := Ingress(source);
    if Receipted(p.ingressReceipts, id) then
      && (accepted <==> SameTexts(p, p.ingressReceipts, id, contact, context)) && (accepted ==> t == p)
    else if Waiting(p.roots, id) then
      && (accepted <==> SameTexts(p, p.ingressReceipts, id, contact, context))
      && (accepted ==> t == p.(ingressReceipts := t.ingressReceipts)
                       && ReceiptCaughtUp(p, p.ingressReceipts, t.ingressReceipts, id, contact, context))
    else
      && accepted && t == p.(roots := t.roots, ingressReceipts := t.ingressReceipts, safeToStop := false)
      && |t.roots| == |p.roots| + 1 && t.roots[..|p.roots|] == p.roots
      && FreshlyQueued(p, t.roots[|p.roots|], contact, context, now)
      && t.roots[|p.roots|].queueId == id && t.roots[|p.roots|].claim == Unclaimed && t.roots[|p.roots|].transfer == None
      && t.ingressReceipts == p.ingressReceipts + [Receipt(id, contact, context, now)]
  }

  /** The position a search finds is that of the only receipt, or root, of the identity. */
  lemma FoundReceipt(receipts: seq<Receipt>, id: QueueId)
    requires DistinctReceipts(receipts)
    ensures ReceiptIndex(receipts, id) < |receipts| <==> Receipted(receipts, id)
    ensures forall r :: r in receipts && r.queueId == id ==>
              ReceiptIndex(receipts, id) < |receipts| && receipts[ReceiptIndex(receipts, id)] == r
  {
    var k := ReceiptIndex(receipts, id);
    if k < |receipts| {
      assert receipts[k] in receipts;
    }
    forall r | r in receipts && r.queueId == id ensures k < |receipts| && receipts[k] == r {
      var i :| 0 <= i < |receipts| && receipts[i] == r;
    }
  }

  lemma FoundRoot(roots: seq<Root>, id: QueueId)
    requires DistinctQueueIds(roots)
    ensures RootIndex(roots, id) < |roots| <==> Waiting(roots, id)
    ensures forall r :: r in roots && r.queueId == id ==> RootIndex(roots, id) < |roots| && roots[RootIndex(roots, id)] == r
  {
    var k := RootIndex(roots, id);
    if k < |roots| {
      assert roots[k] in roots;
    }
    forall r | r in roots && r.queueId == id ensures k < |roots| && roots[k] == r {
      var i :| 0 <= i < |roots| && roots[i] == r;
    }
  }

  lemma IngressTakes(p: State, contact: string, context: string, source: Source, now: real)
    requires Inv(p)
    ensures var out := Mutate(p, OpEnqueueIngress(contact, context, source), now);
            IngressTaken(p, if out.Some? then out.value else p, out.Some?, contact, context, source, now)
  {
    var id := Ingress(source);
    FoundReceipt(p.ingressReceipts, id);
    FoundRoot(p.roots, id);
    var k, j := ReceiptIndex(p.ingressReceipts, id), RootIndex(p.roots, id);
    if k < |p.ingressReceipts| {
      assert p.ingressReceipts[k] in p.ingressReceipts;
    } else if j < |p.roots| {
      assert p.roots[j] in p.roots;
    }
  }

  /** A transfer: known identities are recognised by their texts, a lease that no longer
      lives is refused, and a live one becomes a root that carries its lineage and epoch. */
  ghost predicate ContinuationTaken(p: State, t: State, transferred: bool, id: QueueId, contact: string, context: string,
                                    lease: nat, now: real) {
    if Receipted(p.continuationReceipts, id) then
      t == p.(nextId := t.nextId) && (transferred <==> SameTexts(p, p.continuationReceipts, id, contact, context))
    else if Waiting(p.roots, id) then
      && (transferred <==> SameTexts(p, p.continuationReceipts, id, contact, context))
      && t == p.(continuationReceipts := t.continuationReceipts, nextId := t.nextId)
      && (if transferred then ReceiptCaughtUp(p, p.continuationReceipts, t.continuationReceipts, id, contact, context)
          else t.continuationReceipts == p.continuationReceipts)
    else if lease !in p.leases then !transferred && t == p.(nextId := t.nextId)
    else
      && transferred
      && t == p.(roots := t.roots, leases := p.leases - {lease}, continuationReceipts := t.continuationReceipts,
                 safeToStop := false, nextId := t.nextId)
      && t.continuationReceipts == p.continuationReceipts + [Receipt(id, contact, context, now)]
      && Continued(p, t.roots, p.leases[lease], id, contact, context, lease, now)
  }

  predicate Continued(p: State, roots: seq<Root>, from: Lease, id: QueueId, contact: string, context: string, lease: nat,
                      now: real) {
    && |roots| == |p.roots| + 1 && roots[..|p.roots|] == p.roots
    && var r := roots[|p.roots|];
       && FreshlyQueued(p, r, contact, context, now) && r.queueId == id && r.claim == Unclaimed
       && r.transfer == Some(Transfer(from.admittedEpoch, from.lineage, lease))
  }

  lemma ContinueAsTakes(p: State, q: State, id: QueueId, contact: string, context: string, lease: nat, now: real)
    requires Inv(p) && q == p.(nextId := q.nextId)
    ensures var out := ContinueAs(q, id, contact, context, lease, now);
            ContinuationTaken(p, out.0, out.1, id, contact, context, lease, now)
  {
    FoundReceipt(p.continuationReceipts, id);
    FoundRoot(p.roots, id);
    var k, j := ReceiptIndex(p.continuationReceipts, id), RootIndex(p.roots, id);
    if k < |p.continuationReceipts| {
      assert p.continuationReceipts[k] in p.continuationReceipts;
    } else if j < |p.roots| {
      assert p.roots[j] in p.roots;
    } else {
      assert ContinueAs(q, id, contact, context, lease, now).0.roots[..|p.roots|] == p.roots;
    }
  }

  /** The identity is the caller's, or one never queued before. */
  ghost predicate Transferred(p: State, t: State, transferred: bool, contact: string, context: string, lease: nat,
                              given: Option<QueueId>, now: real) {
    match given
    case Some(id) => ContinuationTaken(p, t, transferred, id, contact, context, lease, now)
    case None =>
      && transferred == (lease in p.leases)
      && exists id :: !Waiting(p.roots, id) && !Receipted(p.continuationReceipts, id)
                      && ContinuationTaken(p, t, transferred, id, contact, context, lease, now)
  }

  lemma ContinuationTakes(p: State, contact: string, context: string, lease: nat, given: Option<QueueId>, now: real)
    requires Inv(p)
    ensures var out := EnqueueContinuation(p, contact, context, lease, given, now);
            && Mutate(p, OpEnqueueContinuation(contact, context, lease, given), now) == Some(out.0)
            && Transferred(p, out.0, out.1, contact, context, lease, given, now)
  {
    if given.Some? {
      ContinueAsTakes(p, p, given.value, contact, context, lease, now);
    } else {
      var id := Uuid(p.nextId);
      FreshIdentity(p);
      ContinueAsTakes(p, p.(nextId := p.nextId + 1), id, contact, context, lease, now);
    }
  }

  lemma FreshIdentity(p: State)
    requires Inv(p)
    ensures !Waiting(p.roots, Uuid(p.nextId)) && !Receipted(p.continuationReceipts, Uuid(p.nextId))
  {
    forall r | r in p.roots ensures r.queueId != Uuid(p.nextId) {
      var i :| 0 <= i < |p.roots| && p.roots[i] == r;
      assert RootIssued(p.roots[i], p.nextId);
    }
  }

  // -------------------------------------------------------------------- claims

  predicate Newly(p: State, t: State, i: nat)
    requires i < |p.roots| == |t.roots|
  {
    p.roots[i].claim.Unclaimed? && t.roots[i].claim.Claimed?
  }

  /** How many roots from `from` up to `to` were claimed. */
  function Claims(p: State, t: State, from: nat, to: nat): nat
    requires from <= to <= |p.roots| == |t.roots|
    decreases |p.roots| - from
  {
    if from == to then 0 else (if Newly(p, t, from) then 1 else 0) + Claims(p, t, from + 1, to)
  }

  predicate Ready(p: State, r: Root, excluded: set<string>, now: real) {
    && r.claim.Unclaimed? && r.contact !in excluded && r.notBefore <= now
    && (p.phase == Available || (p.phase == Draining && r.transfer.Some? && r.transfer.value.admittedEpoch < p.epoch))
  }

  ghost predicate ContactTaken(p: State, t: State, from: nat, i: nat)
    requires from <= i < |p.roots| == |t.roots|
  {
    exists j :: from <= j < i && Newly(p, t, j) && p.roots[j].contact == p.roots[i].contact
  }

  /** Exactly the ready roots are claimed, in queue order, up to the limit, and with
      `unique` the first of each contact only. */
  ghost predicate RightOnesClaimed(p: State, t: State, from: nat, room: nat, excluded: set<string>, unique: bool, now: real)
    requires |p.roots| == |t.roots|
  {
    forall i :: from <= i < |p.roots| ==>
      (Newly(p, t, i) <==>
       Ready(p, p.roots[i], excluded, now) && Claims(p, t, from, i) < room && (unique ==> !ContactTaken(p, t, from, i)))
  }

  /** A claimed root changes its claim alone and is answered for in its turn; another root
      does not change. */
  predicate Answered(p: State, t: State, from: nat, i: nat, admissions: seq<Admission>, now: real)
    requires from <= i < |p.roots| == |t.roots|
  {
    if Newly(p, t, i) then
      && t.roots[i] == p.roots[i].(claim := t.roots[i].claim)
      && Claims(p, t, from, i) < |admissions|
      && AdmittedNow(t, t.roots[i], admissions[Claims(p, t, from, i)], now)
      && admissions[Claims(p, t, from, i)].activity.leaseId !in p.leases
    else t.roots[i] == p.roots[i]
  }

  ghost predicate ClaimsAnswered(p: State, t: State, from: nat, admissions: seq<Admission>, now: real)
    requires from <= |p.roots| == |t.roots|
  {
    && |admissions| == Claims(p, t, from, |p.roots|)
    && (forall i :: 0 <= i < from ==> t.roots[i] == p.roots[i])
    && forall i :: from <= i < |p.roots| ==> Answered(p, t, from, i, admissions, now)
  }

  /** Every lease stays as it was, the lease a continuation was handed over from being gone
      already; each claim has one of its own besides. */
  ghost predicate LeasesMove(p: State, t: State, from: nat)
    requires from <= |p.roots| == |t.roots|
  {
    && (forall id :: id in p.leases ==> id in t.leases && t.leases[id] == p.leases[id])
    && (forall id :: id in t.leases && id !in p.leases ==>
          exists i :: from <= i < |p.roots| && Newly(p, t, i) && t.roots[i].claim.lease == id)
  }

  ghost predicate ClaimedInOrder(p: State, t: State, admissions: seq<Admission>, limit: int, excluded: set<string>,
                                 unique: bool, now: real) {
    && |t.roots| == |p.roots|
    && t == p.(roots := t.roots, leases := t.leases, nextId := t.nextId, safeToStop := t.safeToStop)
    && t.safeToStop == (p.safeToStop && admissions == [])
    && RightOnesClaimed(p, t, 0, if limit < 1 then 1 else limit, excluded, unique, now)
    && ClaimsAnswered(p, t, 0, admissions, now)
    && LeasesMove(p, t, 0)
  }

  /** What claiming from position `from` on does, with so much room left. */
  ghost predicate ClaimedFrom(p: State, t: State, from: nat, room: nat, excluded: set<string>, unique: bool,
                              admissions: seq<Admission>, now: real)
    requires from <= |p.roots|
  {
    && |t.roots| == |p.roots|
    && RightOnesClaimed(p, t, from, room, excluded, unique, now)
    && ClaimsAnswered(p, t, from, admissions, now)
    && LeasesMove(p, t, from)
  }

  lemma {:induction false} NoClaims(p: State, from: nat, to: nat)
    requires from <= to <= |p.roots|
    ensures Claims(p, p, from, to) == 0
    decreases |p.roots| - from
  {
    if from < to {
      NoClaims(p, from + 1, to);
    }
  }

  /** The same roots count as claimed, wherever the two documents agree. */
  lemma {:induction false} ClaimsSame(p: State, q: State, t: State, from: nat, to: nat)
    requires from <= to <= |p.roots| && |p.roots| == |q.roots| && |q.roots| == |t.roots|
    requires forall k :: from <= k < to ==> q.roots[k] == p.roots[k]
    ensures Claims(p, t, from, to) == Claims(q, t, from, to)
    decreases |p.roots| - from
  {
    if from < to {
      ClaimsSame(p, q, t, from + 1, to);
    }
  }

  lemma {:induction false} ClaimsGrow(p: State, t: State, from: nat, k: nat)
    requires from <= k < |p.roots| && |p.roots| == |t.roots|
    ensures Claims(p, t, from, k) + (if Newly(p, t, k) then 1 else 0) <= Claims(p, t, from, |p.roots|)
    decreases |p.roots| - from
  {
    if from < k {
      ClaimsGrow(p, t, from + 1, k);
    }
  }

  /** What claiming the root at i, and then those after it, starts from. */
  ghost predicate AfterFirst(p: State, q: State, t: State, i: nat, now: real) {
    && i < |p.roots| && |p.roots| == |q.roots| && |q.roots| == |t.roots|
    && Issued(p) && TransfersSpent(p) && q == ClaimRoot(p, i, now) && p.roots[i].claim.Unclaimed?
    && t == q.(roots := t.roots, leases := t.leases, nextId := t.nextId, safeToStop := t.safeToStop)
    && t.roots[i] == q.roots[i]
  }

  lemma FirstIsClaimed(p: State, q: State, t: State, i: nat, k: nat, now: real)
    requires AfterFirst(p, q, t, i, now) && i < k <= |p.roots|
    ensures Newly(p, t, i) && Claims(p, t, i, k) == 1 + Claims(q, t, i + 1, k)
    ensures k < |p.roots| ==> (Newly(p, t, k) <==> Newly(q, t, k))
    ensures k < |p.roots| ==>
              (ContactTaken(p, t, i, k) <==> p.roots[k].contact == p.roots[i].contact || ContactTaken(q, t, i + 1, k))
  {
    ClaimsSame(p, q, t, i + 1, k);
    if k < |p.roots| {
      if ContactTaken(p, t, i, k) && p.roots[k].contact != p.roots[i].contact {
        var j :| i <= j < k && Newly(p, t, j) && p.roots[j].contact == p.roots[k].contact;
        assert Newly(q, t, j);
      }
      if ContactTaken(q, t, i + 1, k) {
        var j :| i + 1 <= j < k && Newly(q, t, j) && q.roots[j].contact == q.roots[k].contact;
        assert Newly(p, t, j);
      }
    }
  }

  lemma FirstAndTheRight(p: State, q: State, t: State, i: nat, budget: nat, excluded: set<string>, unique: bool, now: real)
    requires AfterFirst(p, q, t, i, now) && budget > 0 && Ready(p, p.roots[i], excluded, now)
    requires RightOnesClaimed(q, t, i + 1, budget - 1, if unique then excluded + {p.roots[i].contact} else excluded,
                              unique, now)
    ensures RightOnesClaimed(p, t, i, budget, excluded, unique, now)
  {
    forall k | i <= k < |p.roots|
      ensures Newly(p, t, k) <==>
              Ready(p, p.roots[k], excluded, now) && Claims(p, t, i, k) < budget && (unique ==> !ContactTaken(p, t, i, k))
    {
      if k > i {
        FirstIsClaimed(p, q, t, i, k, now);
        assert q.roots[k] == p.roots[k];
      } else {
        assert Newly(p, t, i);
      }
    }
  }

  lemma FirstLeases(p: State, q: State, t: State, i: nat, now: real)
    requires AfterFirst(p, q, t, i, now) && LeasesMove(q, t, i + 1)
    ensures LeasesMove(p, t, i)
    ensures forall id :: id in p.leases ==> id in q.leases
    ensures p.nextId + 1 in t.leases && t.leases[p.nextId + 1] == ClaimedLease(p, p.roots[i], now)
    ensures p.nextId + 1 !in p.leases
  {
    assert forall id :: id in p.leases ==> id in q.leases && q.leases[id] == p.leases[id];
    assert RootIssued(p.roots[i], p.nextId);
    assert p.nextId + 1 in q.leases;
    forall id | id in t.leases && id !in p.leases
      ensures exists k :: i <= k < |p.roots| && Newly(p, t, k) && t.roots[k].claim.lease == id
    {
      if id == p.nextId + 1 {
        assert Newly(p, t, i) && t.roots[i].claim.lease == id;
      } else {
        var k :| i + 1 <= k < |q.roots| && Newly(q, t, k) && t.roots[k].claim.lease == id;
        assert Newly(p, t, k);
      }
    }
  }

  lemma FirstAdmitted(p: State, q: State, t: State, i: nat, now: real)
    requires AfterFirst(p, q, t, i, now)
    requires p.nextId + 1 in t.leases && t.leases[p.nextId + 1] == ClaimedLease(p, p.roots[i], now)
    ensures AdmittedNow(t, t.roots[i], AdmissionOf(p, i, now), now)
  {
  }

  /** The k-th root is answered as claiming from i + 1 on answered it. */
  lemma LaterAnswered(p: State, q: State, t: State, i: nat, rest: seq<Admission>, k: nat, now: real)
    requires AfterFirst(p, q, t, i, now) && ClaimsAnswered(q, t, i + 1, rest, now) && i < k < |p.roots|
    requires forall id :: id in p.leases ==> id in q.leases
    ensures Answered(p, t, i, k, [AdmissionOf(p, i, now)] + rest, now)
  {
    FirstIsClaimed(p, q, t, i, k, now);
    assert Answered(q, t, i + 1, k, rest, now);
    assert Newly(q, t, k) ==> ([AdmissionOf(p, i, now)] + rest)[Claims(p, t, i, k)] == rest[Claims(q, t, i + 1, k)];
  }

  lemma FirstItself(p: State, q: State, t: State, i: nat, rest: seq<Admission>, now: real)
    requires AfterFirst(p, q, t, i, now) && LeasesMove(q, t, i + 1)
    ensures Answered(p, t, i, i, [AdmissionOf(p, i, now)] + rest, now)
  {
    FirstLeases(p, q, t, i, now);
    FirstAdmitted(p, q, t, i, now);
    assert Claims(p, t, i, i) == 0;
  }

  lemma FirstAnswered(p: State, q: State, t: State, i: nat, rest: seq<Admission>, now: real)
    requires AfterFirst(p, q, t, i, now) && ClaimsAnswered(q, t, i + 1, rest, now) && LeasesMove(q, t, i + 1)
    ensures ClaimsAnswered(p, t, i, [AdmissionOf(p, i, now)] + rest, now)
  {
    var all := [AdmissionOf(p, i, now)] + rest;
    assert |all| == Claims(p, t, i, |p.roots|) by { FirstIsClaimed(p, q, t, i, |p.roots|, now); }
    forall k | i <= k < |p.roots| ensures Answered(p, t, i, k, all, now) {
      if k == i {
        FirstItself(p, q, t, i, rest, now);
      } else {
        assert forall id :: id in p.leases ==> id in q.leases by { FirstLeases(p, q, t, i, now); }
        LaterAnswered(p, q, t, i, rest, k, now);
      }
    }
  }

  /** The root at i is passed over. */
  lemma FirstPassedOver(p: State, t: State, i: nat, room: nat, excluded: set<string>, unique: bool,
                        admissions: seq<Admission>, now: real)
    requires i < |p.roots| && !Ready(p, p.roots[i], excluded, now)
    requires ClaimedFrom(p, t, i + 1, room, excluded, unique, admissions, now)
    ensures ClaimedFrom(p, t, i, room, excluded, unique, admissions, now)
  {
    assert !Newly(p, t, i);
    forall k | i < k < |p.roots| ensures Claims(p, t, i, k) == Claims(p, t, i + 1, k)
                                 ensures ContactTaken(p, t, i, k) <==> ContactTaken(p, t, i + 1, k)
    {
    }
    assert Claims(p, t, i, |p.roots|) == Claims(p, t, i + 1, |p.roots|);
    forall k | i <= k < |p.roots|
      ensures Newly(p, t, k) <==>
              Ready(p, p.roots[k], excluded, now) && Claims(p, t, i, k) < room && (unique ==> !ContactTaken(p, t, i, k))
    {
      if k > i {
        assert Claims(p, t, i, k) == Claims(p, t, i + 1, k);
      }
    }
    assert Answered(p, t, i, i, admissions, now);
    forall k | i < k < |p.roots| ensures Answered(p, t, i, k, admissions, now) {
      assert Answered(p, t, i + 1, k, admissions, now) && Claims(p, t, i, k) == Claims(p, t, i + 1, k);
    }
  }

  lemma {:induction false} ClaimsFrom(p: State, i: nat, budget: nat, excluded: set<string>, unique: bool, now: real)
    requires Inv(p) && i <= |p.roots| && (p.phase == Available || p.phase == Draining)
    ensures var out := ClaimFrom(p, i, budget, excluded, unique, now);
            && ClaimedFrom(p, out.0, i, budget, excluded, unique, out.1, now)
            && out.0 == p.(roots := out.0.roots, leases := out.0.leases, nextId := out.0.nextId,
                           safeToStop := out.0.safeToStop)
            && out.0.safeToStop == (p.safeToStop && out.1 == [])
    decreases |p.roots| - i
  {
    if i == |p.roots| || budget == 0 {
      NoClaims(p, i, |p.roots|);
    } else if Claimable(p.phase, p.epoch, p.roots[i], excluded, now) {
      var q := ClaimRoot(p, i, now);
      ClaimRootKeepsInv(p, i, now);
      var taken := if unique then excluded + {p.roots[i].contact} else excluded;
      ClaimsFrom(q, i + 1, budget - 1, taken, unique, now);
      var out := ClaimFrom(q, i + 1, budget - 1, taken, unique, now);
      assert AfterFirst(p, q, out.0, i, now);
      FirstAndTheRight(p, q, out.0, i, budget, excluded, unique, now);
      FirstLeases(p, q, out.0, i, now);
      FirstAnswered(p, q, out.0, i, out.1, now);
    } else {
      ClaimsFrom(p, i + 1, budget, excluded, unique, now);
      var out := ClaimFrom(p, i + 1, budget, excluded, unique, now);
      FirstPassedOver(p, out.0, i, budget, excluded, unique, out.1, now);
    }
  }

  lemma NothingReady(p: State, limit: int, excluded: set<string>, unique: bool, now: real)
    requires p.phase != Available && p.phase != Draining
    ensures ClaimedInOrder(p, p, [], limit, excluded, unique, now)
  {
    NoClaims(p, 0, |p.roots|);
  }

  lemma ClaimTakes(p: State, limit: int, excluded: set<string>, unique: bool, now: real)
    requires Inv(p)
    ensures var out := ClaimPendingRoots(p, limit, excluded, unique, now);
            && Mutate(p, OpClaim(limit, excluded, unique), now) == Some(out.0)
            && ClaimedInOrder(p, out.0, out.1, limit, excluded, unique, now)
  {
    if p.phase == Available || p.phase == Draining {
      ClaimsFrom(p, 0, ClaimLimit(limit), excluded, unique, now);
    } else {
      NothingReady(p, limit, excluded, unique, now);
    }
  }

  // -------------------------------------------------------------------- leases

  /** A heartbeat on a live lease carries it, and the claims under it, on from now. */
  predicate Beaten(p: State, t: State, alive: bool, lease: nat, ttl: real, now: real) {
    && alive == (lease in p.leases)
    && (!alive ==> t == p)
    && (alive ==>
          && t == p.(roots := t.roots, leases := t.leases) && |t.roots| == |p.roots|
          && t.leases == p.leases[lease := p.leases[lease].(expiresAt := now + (if ttl < 5.0 then 5.0 else ttl))]
          && forall i :: 0 <= i < |p.roots| ==>
               t.roots[i] == if p.roots[i].claim.Claimed? && p.roots[i].claim.lease == lease
                             then p.roots[i].(claim := Claimed(p.roots[i].claim.token, now + 120.0, lease))
                             else p.roots[i])
  }

  lemma HeartbeatReaches(p: State, lease: nat, ttl: real, now: real)
    ensures var out := Heartbeat(p, lease, ttl, now);
            Mutate(p, OpHeartbeat(lease, ttl), now) == Some(out.0) && Beaten(p, out.0, out.1, lease, ttl, now)
  {
  }

  /** A lease was added, of this kind, epoch and parent, for as long as asked. */
  predicate LeaseAdded(p: State, t: State, token: ActivityToken, kind: string, parent: Option<nat>, epoch: nat, ttl: real,
                       now: real) {
    && token.leaseId !in p.leases && token.admittedEpoch == epoch
    && t == p.(leases := p.leases[token.leaseId := Lease(kind, token.lineage, parent, epoch,
                                                         now + (if ttl < 5.0 then 5.0 else ttl))],
               safeToStop := false, nextId := t.nextId)
  }

  /** Work is admitted while the fence is down, or under a live lease that was admitted
      before the fence, whose lineage and epoch it then shares. */
  predicate Acquired(p: State, t: State, acquired: Option<ActivityToken>, kind: string, parent: Option<ActivityToken>,
                     ttl: real, now: real) {
    && (acquired.Some? <==>
        p.phase == Available
        || (parent.Some? && parent.value.leaseId in p.leases && parent.value.admittedEpoch < p.epoch))
    && (acquired.None? ==> t == p)
    && (acquired.Some? ==>
          && LeaseAdded(p, t, acquired.value, kind, if parent.Some? then Some(parent.value.leaseId) else None,
                        if p.phase == Available then p.epoch else parent.value.admittedEpoch, ttl, now)
          && (parent.Some? ==> acquired.value.lineage == parent.value.lineage))
  }

  lemma AcquireAdmits(p: State, kind: string, parent: Option<ActivityToken>, ttl: real, now: real)
    requires Inv(p)
    ensures var out := AcquireActivity(p, kind, parent, ttl, now);
            Mutate(p, OpAcquire(kind, parent, ttl), now) == Some(out.0)
            && Acquired(p, out.0, out.1, kind, parent, ttl, now)
  {
  }

  /** Legacy work is adopted while the fence is down, or when it is dated no later than the
      fence was raised or not dated at all; then it counts as admitted before the fence. */
  predicate Adopted(p: State, t: State, acquired: Option<ActivityToken>, kind: string, startedAt: real, ttl: real,
                    now: real) {
    && (acquired.Some? <==>
        p.phase == Available || (p.requestedAt != 0.0 && (startedAt == 0.0 || startedAt <= p.requestedAt)))
    && (acquired.None? ==> t == p)
    && (acquired.Some? ==>
          LeaseAdded(p, t, acquired.value, kind, None,
                     if p.phase == Available || p.epoch == 0 then p.epoch else p.epoch - 1, ttl, now))
  }

  lemma AdoptAdmits(p: State, kind: string, startedAt: real, ttl: real, now: real)
    requires Inv(p)
    ensures var out := AdoptPrefenceActivity(p, kind, startedAt, ttl, now);
            Mutate(p, OpAdopt(kind, startedAt, ttl), now) == Some(out.0)
            && Adopted(p, out.0, out.1, kind, startedAt, ttl, now)
  {
  }

  ghost predicate LeaseDropped(p: State, t: State, released: bool, lease: nat) {
    && released == (lease in p.leases) && t == p.(leases := t.leases)
    && (forall id :: id in t.leases <==> id in p.leases && id != lease)
    && (forall id :: id in t.leases ==> t.leases[id] == p.leases[id])
  }

  lemma ReleaseDrops(p: State, lease: nat, now: real)
    ensures var out := Release(p, lease);
            Mutate(p, OpRelease(lease), now) == Some(out.0) && LeaseDropped(p, out.0, out.1, lease)
  {
  }

  // ---------------------------------------------------------------- settlement

  /** The root's current claim is the one presented for it last. */
  ghost predicate Presented(admissions: seq<Admission>, r: Root) {
    && r.claim.Claimed?
    && exists i :: 0 <= i < |admissions| && LastFor(admissions, i)
                   && admissions[i].queueId == r.queueId && admissions[i].token == r.claim.token
                   && admissions[i].activity.leaseId == r.claim.lease
  }

  ghost predicate LastFor(admissions: seq<Admission>, i: nat)
    requires i < |admissions|
  {
    forall j :: i < j < |admissions| ==> admissions[j].queueId != admissions[i].queueId
  }

  lemma {:induction false} KeysAreTheLast(admissions: seq<Admission>, r: Root)
    ensures Holds(r, Keys(admissions)) <==> Presented(admissions, r)
    ensures r.queueId in Keys(admissions) <==> exists i :: 0 <= i < |admissions| && admissions[i].queueId == r.queueId
  {
    if admissions != [] {
      var n := |admissions| - 1;
      var front, last := admissions[..n], admissions[n];
      KeysAreTheLast(front, r);
      assert forall i :: 0 <= i < n ==> admissions[i] == front[i];
      if last.queueId == r.queueId {
        assert LastFor(admissions, n);
        if Presented(admissions, r) {
          var i :| 0 <= i < |admissions| && LastFor(admissions, i) && admissions[i].queueId == r.queueId
                   && admissions[i].token == r.claim.token && admissions[i].activity.leaseId == r.claim.lease;
          assert i == n;
        }
      } else {
        PresentedBefore(admissions, r);
      }
    }
  }

  /** An admission of another root does not matter. */
  lemma PresentedBefore(admissions: seq<Admission>, r: Root)
    requires admissions != [] && admissions[|admissions| - 1].queueId != r.queueId
    ensures Presented(admissions, r) <==> Presented(admissions[..|admissions| - 1], r)
  {
    var n := |admissions| - 1;
    var front := admissions[..n];
    if Presented(front, r) {
      var i :| 0 <= i < |front| && LastFor(front, i) && front[i].queueId == r.queueId
               && front[i].token == r.claim.token && front[i].activity.leaseId == r.claim.lease;
      assert admissions[i] == front[i];
      forall j | i < j < |admissions| ensures admissions[j].queueId != admissions[i].queueId {
        assert j < n ==> admissions[j] == front[j];
      }
      assert LastFor(admissions, i);
    }
    if Presented(admissions, r) {
      var i :| 0 <= i < |admissions| && LastFor(admissions, i) && admissions[i].queueId == r.queueId
               && admissions[i].token == r.claim.token && admissions[i].activity.leaseId == r.claim.lease;
      assert i < n && front[i] == admissions[i];
      assert LastFor(front, i) by {
        assert forall j :: i < j < n ==> front[j] == admissions[j];
      }
    }
  }

  /** The leases of the settled roots go, and no others. */
  ghost predicate LeasesGiven(p: State, t: State, admissions: seq<Admission>) {
    && (forall id :: id in t.leases <==>
          id in p.leases && !exists r :: r in p.roots && Presented(admissions, r) && r.claim.lease == id)
    && forall id :: id in t.leases ==> t.leases[id] == p.leases[id]
  }

  predicate InOrder(roots: seq<Root>, first: Root, second: Root) {
    exists i, j :: 0 <= i < j < |roots| && roots[i] == first && roots[j] == second
  }

  /** Exactly the presented roots leave the queue; the rest keeps its order. */
  ghost predicate Completed(p: State, t: State, admissions: seq<Admission>) {
    && t == p.(roots := t.roots, leases := t.leases) && LeasesGiven(p, t, admissions)
    && (forall r :: r in t.roots <==> r in p.roots && !Presented(admissions, r))
    && |t.roots| <= |p.roots|
    && forall i, j :: 0 <= i < j < |t.roots| ==> InOrder(p.roots, t.roots[i], t.roots[j])
  }

  /** The number of doublings after so many failures, written out. */
  function Factor(failures: nat): real {
    if failures == 0 then 1.0 else if failures == 1 then 2.0 else if failures == 2 then 4.0
    else if failures == 3 then 8.0 else if failures == 4 then 16.0 else if failures == 5 then 32.0 else 64.0
  }

  function Delay(requested: real, failures: nat): real {
    var wanted := (if requested < 0.0 then 0.0 else requested) * Factor(failures);
    if wanted < 300.0 then wanted else 300.0
  }

  /** Exactly the presented roots go back to waiting, with the failure counted and the delay
      their earlier failures earn. */
  ghost predicate Retried(p: State, t: State, admissions: seq<Admission>, delay: real, now: real) {
    && t == p.(roots := t.roots, leases := t.leases) && LeasesGiven(p, t, admissions) && |t.roots| == |p.roots|
    && forall i :: 0 <= i < |p.roots| ==>
         t.roots[i] == if Presented(admissions, p.roots[i])
                       then p.roots[i].(claim := Unclaimed, attempts := p.roots[i].attempts + 1,
                                        notBefore := now + Delay(delay, p.roots[i].attempts))
                       else p.roots[i]
  }

  ghost predicate HandedBack(p: State, t: State, admissions: seq<Admission>) {
    && t == p.(roots := t.roots, leases := t.leases) && LeasesGiven(p, t, admissions) && |t.roots| == |p.roots|
    && forall i :: 0 <= i < |p.roots| ==>
         t.roots[i] == if Presented(admissions, p.roots[i]) then p.roots[i].(claim := Unclaimed) else p.roots[i]
  }

  lemma BackoffIsTheDelay(delay: real, failures: nat)
    ensures RetryBackoff(delay, failures + 1) == Delay(delay, failures)
  {
    var n := if failures < 6 then failures else 6;
    assert Doublings(failures + 1) == n;
    assert Power2(n) as real == Factor(failures) by {
      assert Power2(1) == 2 && Power2(2) == 4 && Power2(3) == 8;
      assert Power2(4) == 16 && Power2(5) == 32 && Power2(6) == 64;
    }
  }

  lemma SettledLeases(p: State, t: State, admissions: seq<Admission>)
    requires t.leases == p.leases - HeldLeases(p.roots, Keys(admissions))
    ensures LeasesGiven(p, t, admissions)
  {
    forall r ensures Holds(r, Keys(admissions)) <==> Presented(admissions, r) {
      KeysAreTheLast(admissions, r);
    }
  }

  lemma {:induction false} UnheldStay(roots: seq<Root>, keys: map<QueueId, (nat, nat)>)
    ensures |Unheld(roots, keys)| <= |roots|
    ensures forall r :: r in Unheld(roots, keys) <==> r in roots && !Holds(r, keys)
  {
    if roots != [] {
      UnheldStay(roots[1..], keys);
      assert forall r :: r in roots <==> r == roots[0] || r in roots[1..];
    }
  }

  lemma {:induction false} UnheldInOrder(roots: seq<Root>, keys: map<QueueId, (nat, nat)>, i: nat, j: nat)
    requires i < j < |Unheld(roots, keys)|
    ensures InOrder(roots, Unheld(roots, keys)[i], Unheld(roots, keys)[j])
    decreases |roots|
  {
    var rest, kept := Unheld(roots[1..], keys), Unheld(roots, keys);
    if Holds(roots[0], keys) {
      UnheldInOrder(roots[1..], keys, i, j);
      LaterInOrder(roots, kept[i], kept[j]);
    } else if i > 0 {
      UnheldInOrder(roots[1..], keys, i - 1, j - 1);
      LaterInOrder(roots, kept[i], kept[j]);
    } else {
      UnheldStay(roots[1..], keys);
      assert kept[j] == rest[j - 1] && rest[j - 1] in rest;
      var k :| 0 <= k < |roots[1..]| && roots[1..][k] == kept[j];
      assert roots[0] == kept[0] && roots[k + 1] == kept[j];
    }
  }

  lemma LaterInOrder(roots: seq<Root>, first: Root, second: Root)
    requires roots != [] && InOrder(roots[1..], first, second)
    ensures InOrder(roots, first, second)
  {
    var a, b :| 0 <= a < b < |roots[1..]| && roots[1..][a] == first && roots[1..][b] == second;
    assert roots[a + 1] == first && roots[b + 1] == second;
  }

  lemma CompleteRemoves(p: State, admissions: seq<Admission>, now: real)
    ensures Mutate(p, OpComplete(admissions), now) == Some(CompleteRoots(p, admissions))
    ensures Completed(p, CompleteRoots(p, admissions), admissions)
  {
    UnheldStay(p.roots, Keys(admissions));
    forall i, j | 0 <= i < j < |CompleteRoots(p, admissions).roots|
      ensures InOrder(p.roots, CompleteRoots(p, admissions).roots[i], CompleteRoots(p, admissions).roots[j])
    {
      UnheldInOrder(p.roots, Keys(admissions), i, j);
    }
    forall r ensures Holds(r, Keys(admissions)) <==> Presented(admissions, r) {
      KeysAreTheLast(admissions, r);
    }
    SettledLeases(p, CompleteRoots(p, admissions), admissions);
  }

  lemma RetryPenalises(p: State, admissions: seq<Admission>, delay: real, now: real)
    ensures Mutate(p, OpRetry(admissions, delay), now) == Some(RetryRoots(p, admissions, delay, now))
    ensures Retried(p, RetryRoots(p, admissions, delay, now), admissions, delay, now)
  {
    SettledLeases(p, RetryRoots(p, admissions, delay, now), admissions);
    forall i | 0 <= i < |p.roots|
      ensures Holds(p.roots[i], Keys(admissions)) <==> Presented(admissions, p.roots[i])
      ensures RetryBackoff(delay, p.roots[i].attempts + 1) == Delay(delay, p.roots[i].attempts)
    {
      KeysAreTheLast(admissions, p.roots[i]);
      BackoffIsTheDelay(delay, p.roots[i].attempts);
    }
  }

  lemma DeferHandsBack(p: State, admissions: seq<Admission>, now: real)
    ensures Mutate(p, OpDefer(admissions), now) == Some(DeferRoots(p, admissions))
    ensures HandedBack(p, DeferRoots(p, admissions), admissions)
  {
    SettledLeases(p, DeferRoots(p, admissions), admissions);
    forall i | 0 <= i < |p.roots| ensures Holds(p.roots[i], Keys(admissions)) <==> Presented(admissions, p.roots[i]) {
      KeysAreTheLast(admissions, p.roots[i]);
    }
  }

  // ----------------------------------------------------------------- lifecycle

  /** A drain raises the fence by one epoch, exactly when none is active; asking again for
      the active one changes nothing and asking for another raises. */
  predicate DrainRequested(p: State, t: State, raised: bool, deadline: Option<real>, id: MaintenanceId, now: real) {
    && raised == (p.phase != Available && id != NoMaintenance && id != p.maintenanceId)
    && (p.phase != Available ==> t == p)
    && (p.phase == Available ==>
          && t == p.(epoch := p.epoch + 1, phase := Draining, maintenanceId := t.maintenanceId, requestedAt := now,
                     deadlineAt := t.deadlineAt, safeToStop := false, lastOutcome := NoOutcome, nextId := t.nextId)
          && (if id != NoMaintenance then t.maintenanceId == id else t.maintenanceId.Generated?)
          && t.deadlineAt == match deadline
                             case None => 0.0
                             case Some(d) => now + (if d < 0.0 then 0.0 else d))
  }

  lemma RequestRaises(p: State, deadline: Option<real>, id: MaintenanceId, now: real)
    ensures var out := Mutate(p, OpRequestDrain(deadline, id), now);
            DrainRequested(p, if out.Some? then out.value else p, out.None?, deadline, id, now)
  {
  }

  predicate DrainCancelled(p: State, t: State, cancelled: bool, id: MaintenanceId) {
    && cancelled == (p.phase == Draining && (id == NoMaintenance || id == p.maintenanceId))
    && t == if cancelled then p.(phase := Available, safeToStop := false, lastOutcome := Cancelled) else p
  }

  lemma CancelReopens(p: State, id: MaintenanceId, now: real)
    ensures var out := CancelDrain(p, id);
            Mutate(p, OpCancelDrain(id), now) == Some(out.0) && DrainCancelled(p, out.0, out.1, id)
  {
  }

  /** The edges an update may take, as the updater sees them. */
  predicate Edge(from: Phase, to: Phase) {
    || (from == Draining && (to == Updating || to == Available || to == RollingBack))
    || (from == Updating && (to == Validating || to == RollingBack))
    || (from == Validating && (to == Available || to == RollingBack))
    || (from == RollingBack && to == Available)
  }

  predicate Moved(p: State, t: State, raised: bool, to: Phase, id: MaintenanceId) {
    && (!raised <==>
        && to != Draining && (id == NoMaintenance || id == p.maintenanceId)
        && (to == p.phase || (Edge(p.phase, to) && (to == Updating ==> p.safeToStop))))
    && (to == p.phase ==> t == p)
    && (!raised && to != p.phase ==>
          && t == p.(phase := to, safeToStop := false, lastOutcome := t.lastOutcome)
          && t.lastOutcome == if to != Available then p.lastOutcome
                              else if p.phase == RollingBack then RolledBack
                              else if p.phase == Draining then Cancelled else Updated)
  }

  lemma TransitionMoves(p: State, to: Phase, id: MaintenanceId, now: real)
    ensures var out := Mutate(p, OpTransition(to, id), now);
            Moved(p, if out.Some? then out.value else p, out.None?, to, id)
  {
  }

  /** The stop boundary is granted exactly to a document with nothing left to run. */
  ghost predicate StopGranted(p: State, t: State, granted: bool, epoch: int, secured: bool) {
    && (granted <==>
        && p.phase == Draining && p.epoch == epoch && secured && p.leases == map[]
        && forall r :: r in p.roots ==> r.claim.Claimed? || r.transfer.None?)
    && t == p.(safeToStop := granted)
  }

  lemma AcknowledgeGrants(p: State, epoch: int, secured: bool, now: real)
    ensures var out := AcknowledgeQuiescent(p, epoch, secured);
            Mutate(p, OpAcknowledge(epoch, secured), now) == Some(out.0) && StopGranted(p, out.0, out.1, epoch, secured)
  {
  }
}
