/** `MaintenanceCoordinator` as the source has it: one atomically replaced document
    and public methods that each read it, prune it in place, change it in place and
    write it back.  Every method is tied to the operation it performs. */
module MaintenanceCoordinator {
  import opened Common
  import opened MaintenanceModel
  import opened MaintenanceInvariant
  import opened MaintenanceEffects

  /** `_prune`, first part of the receipts: drop by age, in insertion order. */
  method DropExpired(receipts: seq<Receipt>, ttl: real, now: real) returns (kept: seq<Receipt>)
    ensures kept == Unexpired(receipts, ttl, now)
  {
    kept := [];
    var i := 0;
    while i < |receipts|
      invariant 0 <= i <= |receipts|
      invariant kept + Unexpired(receipts[i..], ttl, now) == Unexpired(receipts, ttl, now)
    {
      assert receipts[i..][1..] == receipts[i + 1..];
      if now - receipts[i].acceptedAt < ttl {
        kept := kept + [receipts[i]];
      }
      i := i + 1;
    }
    assert receipts[i..] == [];
  }

  method FindOldest(receipts: seq<Receipt>) returns (k: nat)
    requires receipts != []
    ensures k == Oldest(receipts)
  {
    k := 0;
    var i := 1;
    while i < |receipts|
      invariant 1 <= i <= |receipts| && k < i
      invariant forall j :: 0 <= j < i ==> receipts[k].acceptedAt <= receipts[j].acceptedAt
      invariant forall j :: 0 <= j < k ==> receipts[k].acceptedAt < receipts[j].acceptedAt
    {
      if receipts[i].acceptedAt < receipts[k].acceptedAt {
        k := i;
      }
      i := i + 1;
    }
  }

  /** `_prune`, second part: evict the earliest accepted beyond the bound. */
  method EvictOldest(receipts: seq<Receipt>, limit: nat) returns (kept: seq<Receipt>)
    ensures kept == Newest(receipts, limit)
  {
    kept := receipts;
    while |kept| > limit
      invariant Newest(kept, limit) == Newest(receipts, limit)
    {
      var k := FindOldest(kept);
      kept := DropAt(kept, k);
    }
  }

  method ReleaseDeadClaims(roots: seq<Root>, leases: map<nat, Lease>, now: real) returns (out: seq<Root>)
    ensures out == RefreshRoots(roots, leases, now)
  {
    out := roots;
    var i := 0;
    while i < |out|
      invariant 0 <= i <= |out| == |roots|
      invariant forall j :: 0 <= j < |roots| ==>
        out[j] == if j < i then RefreshRoot(roots[j], leases, now) else roots[j]
    {
      if out[i].claim.Claimed? && !(out[i].claim.lease in leases && out[i].claim.until > now) {
        out := out[i := out[i].(claim := Unclaimed)];
      }
      i := i + 1;
    }
  }

  method PruneDocument(document: State, now: real) returns (s: State)
    ensures s == Prune(document, now)
    ensures Inv(document) ==> Tidied(document, s, now)
  {
    if Inv(document) {
      PruneTidies(document, now);
    }
    s := document;
    if s.phase == Draining && s.deadlineAt > 0.0 && now >= s.deadlineAt {
      s := s.(phase := Available, safeToStop := false, lastOutcome := DeadlineExpired);
    }
    ghost var cancelled := s;
    var expired := set id | id in s.leases && s.leases[id].expiresAt <= now;
    var leases := s.leases;
    while expired != {}
      invariant leases.Keys - expired == LiveLeases(cancelled.leases, now).Keys
      invariant expired <= leases.Keys
      invariant forall id :: id in leases ==> id in cancelled.leases && leases[id] == cancelled.leases[id]
      decreases expired
    {
      var id :| id in expired;
      leases := leases - {id};
      expired := expired - {id};
    }
    assert leases == LiveLeases(cancelled.leases, now);
    var continuations := DropExpired(s.continuationReceipts, CONTINUATION_RECEIPT_TTL_SECONDS, now);
    continuations := EvictOldest(continuations, MAX_CONTINUATION_RECEIPTS);
    var ingress := DropExpired(s.ingressReceipts, INGRESS_RECEIPT_TTL_SECONDS, now);
    ingress := EvictOldest(ingress, MAX_INGRESS_RECEIPTS);
    var roots := ReleaseDeadClaims(s.roots, leases, now);
    s := s.(leases := leases, continuationReceipts := continuations, ingressReceipts := ingress, roots := roots);
    if s.phase != Draining {
      s := s.(safeToStop := false);
    } else if s.safeToStop && s.leases != map[] {
      s := s.(safeToStop := false);
    }
  }

  method FindReceipt(receipts: seq<Receipt>, id: QueueId) returns (k: nat)
    ensures k == ReceiptIndex(receipts, id)
  {
    k := 0;
    while k < |receipts| && receipts[k].queueId != id
      invariant k <= |receipts|
      invariant forall j :: 0 <= j < k ==> receipts[j].queueId != id
    {
      k := k + 1;
    }
  }

  method FindRoot(roots: seq<Root>, id: QueueId) returns (k: nat)
    ensures k == RootIndex(roots, id)
  {
    k := 0;
    while k < |roots| && roots[k].queueId != id
      invariant k <= |roots|
      invariant forall j :: 0 <= j < k ==> roots[j].queueId != id
    {
      k := k + 1;
    }
  }

  method CollectKeys(admissions: seq<Admission>) returns (keys: map<QueueId, (nat, nat)>)
    ensures keys == Keys(admissions)
  {
    keys := map[];
    var i := 0;
    while i < |admissions|
      invariant 0 <= i <= |admissions|
      invariant keys == Keys(admissions[..i])
    {
      assert admissions[..i + 1][..i] == admissions[..i];
      keys := keys[admissions[i].queueId := (admissions[i].token, admissions[i].activity.leaseId)];
      i := i + 1;
    }
    assert admissions[..i] == admissions;
  }

  /** The closure of `request_drain`. */
  method RaiseFence(document: State, deadline: Option<real>, id: MaintenanceId, now: real) returns (s: State, raised: bool)
    ensures raised <==> MaintenanceModel.RequestDrain(document, deadline, id, now).None?
    ensures !raised ==> MaintenanceModel.RequestDrain(document, deadline, id, now) == Some(s)
  {
    s, raised := document, false;
    if s.phase != Available {
      raised := id != NoMaintenance && id != s.maintenanceId;
    } else {
      var maintenanceId := id;
      if id == NoMaintenance {
        maintenanceId := Generated(s.nextId);
      }
      s := s.(
      epoch := s.epoch + 1,
      phase := Draining,
      maintenanceId := maintenanceId,
      requestedAt := now,
      deadlineAt := if deadline.Some? then now + Max(0.0, deadline.value) else 0.0,
      safeToStop := false,
      lastOutcome := NoOutcome,
      nextId := s.nextId + 1);
    }
  }

  /** The closure of `enqueue_root`: append, then claim while the fence is down. */
  method AppendAndAdmit(document: State, contact: string, context: string, admit: bool, now: real)
    returns (s: State, admission: Option<Admission>)
    ensures s == MaintenanceModel.EnqueueRoot(document, contact, context, admit, now).0
    ensures admission == MaintenanceModel.EnqueueRoot(document, contact, context, admit, now).1
  {
    var root := Root(Uuid(document.nextId), contact, context, now, document.epoch, Unclaimed, 0, 0.0, None);
    s := document.(roots := document.roots + [root], nextId := document.nextId + 1);
    admission := None;
    if s.phase == Available && admit {
      admission := Some(AdmissionOf(s, |document.roots|, now));
      s := ClaimRoot(s, |document.roots|, now);
    }
  }

  /** The closure of `claim_pending_roots`. */
  method ClaimInOrder(document: State, limit: int, excluded: set<string>, unique: bool, now: real)
    returns (s: State, admissions: seq<Admission>)
    ensures s == MaintenanceModel.ClaimPendingRoots(document, limit, excluded, unique, now).0
    ensures admissions == MaintenanceModel.ClaimPendingRoots(document, limit, excluded, unique, now).1
  {
    s, admissions := document, [];
    if s.phase == Available || s.phase == Draining {
      var contacts, i, budget := excluded, 0, ClaimLimit(limit);
      while i < |s.roots| && |admissions| < budget
        invariant 0 <= i <= |s.roots| == |document.roots| && |admissions| <= budget
        invariant ClaimFrom(document, 0, budget, excluded, unique, now).0
               == ClaimFrom(s, i, budget - |admissions|, contacts, unique, now).0
        invariant ClaimFrom(document, 0, budget, excluded, unique, now).1
               == admissions + ClaimFrom(s, i, budget - |admissions|, contacts, unique, now).1
      {
        if Claimable(s.phase, s.epoch, s.roots[i], contacts, now) {
          admissions := admissions + [AdmissionOf(s, i, now)];
          if unique {
            contacts := contacts + {s.roots[i].contact};
          }
          s := ClaimRoot(s, i, now);
        }
        i := i + 1;
      }
    }
  }

  /** The closure of `enqueue_continuation`, once the identity is settled. */
  method HandOver(document: State, id: QueueId, contact: string, context: string, lease: nat, now: real)
    returns (s: State, transferred: bool)
    ensures s == ContinueAs(document, id, contact, context, lease, now).0
    ensures transferred == ContinueAs(document, id, contact, context, lease, now).1
  {
    s, transferred := document, false;
    var k := FindReceipt(s.continuationReceipts, id);
    var j := FindRoot(s.roots, id);
    if k < |s.continuationReceipts| {
      transferred := s.continuationReceipts[k].contact == contact && s.continuationReceipts[k].context == context;
    } else if j < |s.roots| {
      transferred := s.roots[j].contact == contact && s.roots[j].context == context;
      if transferred {
        s := s.(continuationReceipts :=
        s.continuationReceipts + [Receipt(id, contact, context, s.roots[j].enqueuedAt)]);
      }
    } else if lease in s.leases {
      var held := s.leases[lease];
      var root := Root(id, contact, context, now, s.epoch, Unclaimed, 0, 0.0,
                       Some(Transfer(held.admittedEpoch, held.lineage, lease)));
      s := s.(
      roots := s.roots + [root],
      leases := s.leases - {lease},
      continuationReceipts := s.continuationReceipts + [Receipt(id, contact, context, now)],
      safeToStop := false);
      transferred := true;
    }
  }

  /** The closure of `enqueue_continuation`: the caller's identity, or a fresh one. */
  method Continue(document: State, contact: string, context: string, lease: nat, given: Option<QueueId>, now: real)
    returns (s: State, transferred: bool)
    ensures s == MaintenanceModel.EnqueueContinuation(document, contact, context, lease, given, now).0
    ensures transferred == MaintenanceModel.EnqueueContinuation(document, contact, context, lease, given, now).1
  {
    match given {
      case Some(id) =>
        s, transferred := HandOver(document, id, contact, context, lease, now);
      case None =>
        s, transferred := HandOver(document.(nextId := document.nextId + 1), Uuid(document.nextId), contact, context,
                                   lease, now);
    }
  }

  /** The closure of `complete_roots`. */
  method RemoveHeld(s: State, keys: map<QueueId, (nat, nat)>) returns (leases: map<nat, Lease>, retained: seq<Root>)
    ensures leases == s.leases - HeldLeases(s.roots, keys)
    ensures retained == Unheld(s.roots, keys)
  {
    leases, retained := s.leases, [];
    var i := 0;
    while i < |s.roots|
      invariant 0 <= i <= |s.roots|
      invariant retained == Unheld(s.roots[..i], keys)
      invariant leases == s.leases - HeldLeases(s.roots[..i], keys)
    {
      var item := s.roots[i];
      HeldLeasesSnoc(s.roots, keys, i);
      UnheldSnoc(s.roots[..i], keys, s.roots[i]);
      assert s.roots[..i] + [s.roots[i]] == s.roots[..i + 1];
      if item.queueId !in keys || item.claim.Unclaimed?
         || item.claim.token != keys[item.queueId].0 || item.claim.lease != keys[item.queueId].1 {
        retained := retained + [item];
      } else {
        leases := leases - {keys[item.queueId].1};
        DropMore(s.leases, HeldLeases(s.roots[..i], keys), item.claim.lease);
      }
      i := i + 1;
    }
    assert s.roots[..i] == s.roots;
  }

  /** One root of the closures of `retry_roots` and `defer_roots`. */
  function Released(r: Root, keys: map<QueueId, (nat, nat)>, penalty: Option<real>, now: real): Root {
    if !Holds(r, keys) then r
    else if penalty.Some? then RetriedRoot(r, penalty.value, now)
    else DeferredRoot(r)
  }

  method ReleaseClaim(root: Root, penalty: Option<real>, now: real) returns (item: Root)
    requires root.claim.Claimed?
    ensures item == if penalty.Some? then RetriedRoot(root, penalty.value, now) else DeferredRoot(root)
  {
    item := root;
    if penalty.Some? {
      var attempts := item.attempts + 1;
      item := item.(attempts := attempts, notBefore := now + RetryBackoff(penalty.value, attempts));
    }
    item := item.(claim := Unclaimed);
  }

  /** The closures of `retry_roots` and `defer_roots`: drop the held claims, with
      or without a penalty. */
  method ReleaseHeld(s: State, keys: map<QueueId, (nat, nat)>, penalty: Option<real>, now: real)
    returns (leases: map<nat, Lease>, roots: seq<Root>)
    ensures leases == s.leases - HeldLeases(s.roots, keys)
    ensures roots == if penalty.Some? then RetryHeld(s.roots, keys, penalty.value, now) else DeferHeld(s.roots, keys)
  {
    leases, roots := s.leases, s.roots;
    var i := 0;
    while i < |roots|
      invariant 0 <= i <= |roots| == |s.roots|
      invariant leases == s.leases - HeldLeases(s.roots[..i], keys)
      invariant forall j :: 0 <= j < i ==> roots[j] == Released(s.roots[j], keys, penalty, now)
      invariant forall j :: i <= j < |roots| ==> roots[j] == s.roots[j]
    {
      var item := roots[i];
      HeldLeasesSnoc(s.roots, keys, i);
      if item.queueId in keys && item.claim.Claimed?
         && item.claim.token == keys[item.queueId].0 && item.claim.lease == keys[item.queueId].1 {
        DropMore(s.leases, HeldLeases(s.roots[..i], keys), item.claim.lease);
        leases := leases - {keys[item.queueId].1};
        item := ReleaseClaim(item, penalty, now);
        roots := roots[i := item];
      }
      i := i + 1;
    }
    assert s.roots[..i] == s.roots;
  }

  class Coordinator {
    /** The JSON document on disk; replaced as a whole by each transaction. */
    var document: State

    ghost predicate Valid()
      reads this
    {
      Inv(document)
    }

    constructor ()
      ensures document == DEFAULT_STATE && Valid()
    {
      document := DEFAULT_STATE;
      new;
      DefaultStateInv();
    }

    method RequestDrain(deadline: Option<real>, id: MaintenanceId, now: real) returns (raised: bool)
      requires Valid()
      modifies this
      ensures Valid() && document == Apply(old(document), OpRequestDrain(deadline, id), now)
      ensures raised <==> Mutate(Prune(old(document), now), OpRequestDrain(deadline, id), now).None?
      ensures DrainRequested(Prune(old(document), now), if raised then Prune(old(document), now) else document, raised,
                             deadline, id, now)
      ensures raised ==> document == old(document)
    {
      var s := PruneDocument(document, now);
      s, raised := RaiseFence(s, deadline, id, now);
      if !raised {
        document := s;
      }
      assert Valid() by { ApplyKeepsInv(old(document), OpRequestDrain(deadline, id), now); }
      RequestRaises(Prune(old(document), now), deadline, id, now);
    }

    method CancelDrain(id: MaintenanceId, now: real) returns (cancelled: bool)
      requires Valid()
      modifies this
      ensures Valid() && document == Apply(old(document), OpCancelDrain(id), now)
      ensures cancelled == MaintenanceModel.CancelDrain(Prune(old(document), now), id).1
      ensures DrainCancelled(Prune(old(document), now), document, cancelled, id)
    {
      ApplyKeepsInv(document, OpCancelDrain(id), now);
      var s := PruneDocument(document, now);
      cancelled := false;
      if s.phase == Draining && (id == NoMaintenance || id == s.maintenanceId) {
        s := s.(phase := Available, safeToStop := false, lastOutcome := Cancelled);
        cancelled := true;
      }
      document := s;
      assert DrainCancelled(Prune(old(document), now), document, cancelled, id) by {
        PruneKeepsInv(old(document), now);
        CancelReopens(Prune(old(document), now), id, now);
      }
    }

    method Transition(to: Phase, id: MaintenanceId, now: real) returns (raised: bool)
      requires Valid()
      modifies this
      ensures Valid() && document == Apply(old(document), OpTransition(to, id), now)
      ensures raised <==> Mutate(Prune(old(document), now), OpTransition(to, id), now).None?
      ensures !raised && to == Updating && old(document).phase != Updating ==> old(document).safeToStop
      ensures Moved(Prune(old(document), now), if raised then Prune(old(document), now) else document, raised, to, id)
      ensures raised ==> document == old(document)
    {
      PruneKeepsInv(document, now);
      TransitionMoves(Prune(document, now), to, id, now);
      ApplyKeepsInv(document, OpTransition(to, id), now);
      var s := PruneDocument(document, now);
      raised := true;
      if to == Draining || (id != NoMaintenance && id != s.maintenanceId) {
        return;
      }
      if to != s.phase {
        if !EdgeAllowed(s.phase, to) || (to == Updating && !s.safeToStop) {
          return;
        }
        var outcome := s.lastOutcome;
        if to == Available {
          outcome := OutcomeOnReturn(s.phase);
        }
        s := s.(phase := to, safeToStop := false, lastOutcome := outcome);
      }
      raised := false;
      document := s;
    }

    method EnqueueRoot(contact: string, context: string, admit: bool, now: real)
      returns (admission: Option<Admission>)
      requires Valid()
      modifies this
      ensures Valid() && document == Apply(old(document), OpEnqueueRoot(contact, context, admit), now)
      ensures admission == MaintenanceModel.EnqueueRoot(Prune(old(document), now), contact, context, admit, now).1
      ensures RootStored(Prune(old(document), now), document, contact, context, admit, now, admission)
    {
      ApplyKeepsInv(document, OpEnqueueRoot(contact, context, admit), now);
      var s := PruneDocument(document, now);
      s, admission := AppendAndAdmit(s, contact, context, admit, now);
      document := s;
      assert RootStored(Prune(old(document), now), document, contact, context, admit, now, admission) by {
        PruneKeepsInv(old(document), now);
        SubmitStores(Prune(old(document), now), contact, context, admit, now);
      }
    }

    method EnqueueIngressRoot(contact: string, context: string, source: Source, now: real)
      returns (accepted: bool)
      requires Valid()
      modifies this
      ensures Valid() && document == Apply(old(document), OpEnqueueIngress(contact, context, source), now)
      ensures accepted <==> Mutate(Prune(old(document), now), OpEnqueueIngress(contact, context, source), now).Some?
      ensures IngressTaken(Prune(old(document), now), if accepted then document else Prune(old(document), now), accepted,
                           contact, context, source, now)
      ensures !accepted ==> document == old(document)
    {
      PruneKeepsInv(document, now);
      IngressTakes(Prune(document, now), contact, context, source, now);
      ApplyKeepsInv(document, OpEnqueueIngress(contact, context, source), now);
      var s := PruneDocument(document, now);
      var id := Ingress(source);
      accepted := false;
      var k := FindReceipt(s.ingressReceipts, id);
      if k < |s.ingressReceipts| {
        if s.ingressReceipts[k].contact != contact || s.ingressReceipts[k].context != context {
          return;
        }
      } else {
        var j := FindRoot(s.roots, id);
        if j < |s.roots| {
          if s.roots[j].contact != contact || s.roots[j].context != context {
            return;
          }
          s := s.(ingressReceipts := s.ingressReceipts + [Receipt(id, contact, context, s.roots[j].enqueuedAt)]);
        } else {
          s := s.(
          roots := s.roots + [Root(id, contact, context, now, s.epoch, Unclaimed, 0, 0.0, None)],
          ingressReceipts := s.ingressReceipts + [Receipt(id, contact, context, now)],
          safeToStop := false);
        }
      }
      accepted := true;
      document := s;
    }

    method ClaimPendingRoots(limit: int, excluded: set<string>, unique: bool, now: real)
      returns (admissions: seq<Admission>)
      requires Valid()
      modifies this
      ensures Valid() && document == Apply(old(document), OpClaim(limit, excluded, unique), now)
      ensures admissions == MaintenanceModel.ClaimPendingRoots(Prune(old(document), now), limit, excluded, unique, now).1
      ensures ClaimedInOrder(Prune(old(document), now), document, admissions, limit, excluded, unique, now)
    {
      var s := PruneDocument(document, now);
      s, admissions := ClaimInOrder(s, limit, excluded, unique, now);
      document := s;
      assert Valid() by { ApplyKeepsInv(old(document), OpClaim(limit, excluded, unique), now); }
      assert ClaimedInOrder(Prune(old(document), now), document, admissions, limit, excluded, unique, now) by {
        PruneKeepsInv(old(document), now);
        ClaimTakes(Prune(old(document), now), limit, excluded, unique, now);
      }
    }

    method EnqueueContinuation(contact: string, context: string, lease: nat, given: Option<QueueId>, now: real)
      returns (transferred: bool)
      requires Valid() && Genuine(document, OpEnqueueContinuation(contact, context, lease, given))
      modifies this
      ensures Valid() && document == Apply(old(document), OpEnqueueContinuation(contact, context, lease, given), now)
      ensures transferred
           == MaintenanceModel.EnqueueContinuation(Prune(old(document), now), contact, context, lease, given, now).1
      ensures Transferred(Prune(old(document), now), document, transferred, contact, context, lease, given, now)
    {
      var s := PruneDocument(document, now);
      document, transferred := Continue(s, contact, context, lease, given, now);
      assert Valid() by {
        ApplyKeepsInv(old(document), OpEnqueueContinuation(contact, context, lease, given), now);
      }
      assert Transferred(Prune(old(document), now), document, transferred, contact, context, lease, given, now) by {
        PruneKeepsInv(old(document), now);
        ContinuationTakes(Prune(old(document), now), contact, context, lease, given, now);
      }
    }

    method Heartbeat(lease: nat, ttl: real, now: real) returns (alive: bool)
      requires Valid()
      modifies this
      ensures Valid() && document == Apply(old(document), OpHeartbeat(lease, ttl), now)
      ensures alive <==> lease in Prune(old(document), now).leases
      ensures Beaten(Prune(old(document), now), document, alive, lease, ttl, now)
    {
      ApplyKeepsInv(document, OpHeartbeat(lease, ttl), now);
      var s := PruneDocument(document, now);
      alive := lease in s.leases;
      if alive {
        var roots, i := s.roots, 0;
        while i < |roots|
          invariant 0 <= i <= |roots| == |s.roots|
          invariant forall j :: 0 <= j < |roots| ==>
            roots[j] == if j < i then BeatRoot(s.roots[j], lease, now) else s.roots[j]
        {
          if roots[i].claim.Claimed? && roots[i].claim.lease == lease {
            roots := roots[i := roots[i].(claim := roots[i].claim.(until := now + ROOT_CLAIM_TTL_SECONDS))];
          }
          i := i + 1;
        }
        assert roots == BeatRoots(s.roots, lease, now);
        s := s.(leases := s.leases[lease := s.leases[lease].(expiresAt := LeaseUntil(ttl, now))], roots := roots);
      }
      document := s;
      assert Beaten(Prune(old(document), now), document, alive, lease, ttl, now) by {
        PruneKeepsInv(old(document), now);
        HeartbeatReaches(Prune(old(document), now), lease, ttl, now);
      }
    }

    method AcquireActivity(kind: string, parent: Option<ActivityToken>, ttl: real, now: real)
      returns (acquired: Option<ActivityToken>)
      requires Valid() && Genuine(document, OpAcquire(kind, parent, ttl))
      modifies this
      ensures Valid() && document == Apply(old(document), OpAcquire(kind, parent, ttl), now)
      ensures acquired == MaintenanceModel.AcquireActivity(Prune(old(document), now), kind, parent, ttl, now).1
      ensures Acquired(Prune(old(document), now), document, acquired, kind, parent, ttl, now)
    {
      ApplyKeepsInv(document, OpAcquire(kind, parent, ttl), now);
      var s := PruneDocument(document, now);
      acquired := None;
      var lineage, parentId, epoch := None, None, s.epoch;
      if parent.Some? {
        lineage, parentId := Some(parent.value.lineage), Some(parent.value.leaseId);
      }
      var admitted := true;
      if s.phase != Available {
        if parent.None? || parent.value.leaseId !in s.leases || parent.value.admittedEpoch >= s.epoch {
          admitted := false;
        } else {
          epoch := parent.value.admittedEpoch;
        }
      }
      if admitted {
        var out := AddLease(s, kind, lineage, parentId, epoch, ttl, now);
        s, acquired := out.0, Some(out.1);
      }
      document := s;
      assert Acquired(Prune(old(document), now), document, acquired, kind, parent, ttl, now) by {
        PruneKeepsInv(old(document), now);
        AcquireAdmits(Prune(old(document), now), kind, parent, ttl, now);
      }
    }

    method AdoptPrefenceActivity(kind: string, startedAt: real, ttl: real, now: real)
      returns (acquired: Option<ActivityToken>)
      requires Valid()
      modifies this
      ensures Valid() && document == Apply(old(document), OpAdopt(kind, startedAt, ttl), now)
      ensures acquired == MaintenanceModel.AdoptPrefenceActivity(Prune(old(document), now), kind, startedAt, ttl, now).1
      ensures Adopted(Prune(old(document), now), document, acquired, kind, startedAt, ttl, now)
    {
      ApplyKeepsInv(document, OpAdopt(kind, startedAt, ttl), now);
      var s := PruneDocument(document, now);
      acquired := None;
      var admitted, epoch := true, s.epoch;
      if s.phase != Available {
        admitted := s.requestedAt != 0.0 && !(startedAt != 0.0 && startedAt > s.requestedAt);
        if epoch > 0 {
          epoch := epoch - 1;
        }
      }
      if admitted {
        var out := AddLease(s, kind, None, None, epoch, ttl, now);
        s, acquired := out.0, Some(out.1);
      }
      document := s;
      assert Adopted(Prune(old(document), now), document, acquired, kind, startedAt, ttl, now) by {
        PruneKeepsInv(old(document), now);
        AdoptAdmits(Prune(old(document), now), kind, startedAt, ttl, now);
      }
    }

    method Release(lease: nat, now: real) returns (released: bool)
      requires Valid()
      modifies this
      ensures Valid() && document == Apply(old(document), OpRelease(lease), now)
      ensures released <==> lease in Prune(old(document), now).leases
      ensures LeaseDropped(Prune(old(document), now), document, released, lease)
    {
      ApplyKeepsInv(document, OpRelease(lease), now);
      var s := PruneDocument(document, now);
      released := lease in s.leases;
      document := s.(leases := s.leases - {lease});
      assert LeaseDropped(Prune(old(document), now), document, released, lease) by {
        PruneKeepsInv(old(document), now);
        ReleaseDrops(Prune(old(document), now), lease, now);
      }
    }

    method CompleteRoots(admissions: seq<Admission>, now: real)
      requires Valid()
      modifies this
      ensures Valid() && document == Apply(old(document), OpComplete(admissions), now)
      ensures Completed(Prune(old(document), now), document, admissions)
    {
      ApplyKeepsInv(document, OpComplete(admissions), now);
      var s := PruneDocument(document, now);
      var keys := CollectKeys(admissions);
      var leases, retained := RemoveHeld(s, keys);
      document := s.(leases := leases, roots := retained);
      assert Completed(Prune(old(document), now), document, admissions) by {
        PruneKeepsInv(old(document), now);
        CompleteRemoves(Prune(old(document), now), admissions, now);
      }
    }

    method RetryRoots(admissions: seq<Admission>, delay: real, now: real)
      requires Valid()
      modifies this
      ensures Valid() && document == Apply(old(document), OpRetry(admissions, delay), now)
      ensures Retried(Prune(old(document), now), document, admissions, delay, now)
    {
      ApplyKeepsInv(document, OpRetry(admissions, delay), now);
      var s := PruneDocument(document, now);
      var keys := CollectKeys(admissions);
      var leases, roots := ReleaseHeld(s, keys, Some(delay), now);
      document := s.(leases := leases, roots := roots);
      assert Retried(Prune(old(document), now), document, admissions, delay, now) by {
        PruneKeepsInv(old(document), now);
        RetryPenalises(Prune(old(document), now), admissions, delay, now);
      }
    }

    method DeferRoots(admissions: seq<Admission>, now: real)
      requires Valid()
      modifies this
      ensures Valid() && document == Apply(old(document), OpDefer(admissions), now)
      ensures HandedBack(Prune(old(document), now), document, admissions)
    {
      ApplyKeepsInv(document, OpDefer(admissions), now);
      var s := PruneDocument(document, now);
      var keys := CollectKeys(admissions);
      var leases, roots := ReleaseHeld(s, keys, None, now);
      document := s.(leases := leases, roots := roots);
      assert HandedBack(Prune(old(document), now), document, admissions) by {
        PruneKeepsInv(old(document), now);
        DeferHandsBack(Prune(old(document), now), admissions, now);
      }
    }

    /** Grants the stop boundary only to a document with nothing left to run. */
    method AcknowledgeRuntimeQuiescent(epoch: int, inputsSecured: bool, now: real) returns (acknowledged: bool)
      requires Valid()
      modifies this
      ensures Valid() && document == Apply(old(document), OpAcknowledge(epoch, inputsSecured), now)
      ensures acknowledged == document.safeToStop
      ensures acknowledged ==> Quiescent(document) && document.epoch == epoch && inputsSecured
      ensures StopGranted(Prune(old(document), now), document, acknowledged, epoch, inputsSecured)
    {
      ApplyKeepsInv(document, OpAcknowledge(epoch, inputsSecured), now);
      var s := PruneDocument(document, now);
      var waiting, i := false, 0;
      while i < |s.roots|
        invariant 0 <= i <= |s.roots|
        invariant waiting <==> exists j :: 0 <= j < i && PendingContinuation(s.roots[j])
      {
        if s.roots[i].claim == Unclaimed && s.roots[i].transfer.Some? {
          waiting := true;
        }
        i := i + 1;
      }
      acknowledged := s.phase == Draining && s.epoch == epoch && s.leases == map[] && !waiting && inputsSecured;
      document := s.(safeToStop := acknowledged);
      assert StopGranted(Prune(old(document), now), document, acknowledged, epoch, inputsSecured) by {
        PruneKeepsInv(old(document), now);
        AcknowledgeGrants(Prune(old(document), now), epoch, inputsSecured, now);
      }
    }
  }

  lemma HeldLeasesSnoc(roots: seq<Root>, keys: map<QueueId, (nat, nat)>, i: nat)
    requires i < |roots|
    ensures HeldLeases(roots[..i + 1], keys)
         == HeldLeases(roots[..i], keys) + (if Holds(roots[i], keys) then {roots[i].claim.lease} else {})
  {
    assert roots[..i + 1] == roots[..i] + [roots[i]];
    assert forall r :: r in roots[..i + 1] <==> r in roots[..i] || r == roots[i];
  }

  lemma {:induction false} UnheldSnoc(roots: seq<Root>, keys: map<QueueId, (nat, nat)>, last: Root)
    ensures Unheld(roots + [last], keys) == Unheld(roots, keys) + (if Holds(last, keys) then [] else [last])
  {
    if roots == [] {
      assert [] + [last] == [last] && [last][1..] == [];
    } else {
      assert (roots + [last])[1..] == roots[1..] + [last];
      UnheldSnoc(roots[1..], keys, last);
    }
  }

  lemma DropMore(leases: map<nat, Lease>, gone: set<nat>, lease: nat)
    ensures leases - gone - {lease} == leases - (gone + {lease})
  {
  }
}
