/** What the maintenance document guarantees over whole runs: quiescence is real,
    the fence admits nothing new, a drain cannot be wedged, claims are exclusive
    and no root is lost. */
module MaintenanceProperties {
  import opened Common
  import opened MaintenanceModel
  import opened MaintenanceInvariant

  datatype Step = Step(op: Op, now: real)

  function Run(s: State, steps: seq<Step>): State
    decreases |steps|
  {
    if steps == [] then s
    else Run(Apply(s, steps[0].op, steps[0].now), steps[1..])
  }

  ghost predicate ValidRun(s: State, steps: seq<Step>)
    decreases |steps|
  {
    steps != [] ==>
      && Genuine(s, steps[0].op)
      && ValidRun(Apply(s, steps[0].op, steps[0].now), steps[1..])
  }

  lemma {:induction false} RunKeepsInv(s: State, steps: seq<Step>)
    requires Inv(s) && ValidRun(s, steps)
    ensures Inv(Run(s, steps))
    decreases |steps|
  {
    if steps != [] {
      ApplyKeepsInv(s, steps[0].op, steps[0].now);
      RunKeepsInv(Apply(s, steps[0].op, steps[0].now), steps[1..]);
    }
  }

  // ----------------------------------------------------------------- quiescence

  lemma QuiescenceIsReal(steps: seq<Step>)
    requires ValidRun(DEFAULT_STATE, steps)
    ensures Run(DEFAULT_STATE, steps).safeToStop ==> Quiescent(Run(DEFAULT_STATE, steps))
  {
    DefaultStateInv();
    RunKeepsInv(DEFAULT_STATE, steps);
  }

  /** The acknowledgement is granted exactly for a quiescent document of the
      acknowledged epoch whose inputs are secured. */
  lemma AcknowledgedExactlyWhenQuiescent(s: State, epoch: int, secured: bool, now: real)
    requires Inv(s)
    ensures var p := Prune(s, now);
            AcknowledgeQuiescent(p, epoch, secured).1 <==> Quiescent(p) && p.epoch == epoch && secured
    ensures Apply(s, OpAcknowledge(epoch, secured), now).safeToStop
            <==> AcknowledgeQuiescent(Prune(s, now), epoch, secured).1
  {
    PruneKeepsInv(s, now);
  }

  ghost predicate DeadlinePassed(s: State, now: real) {
    s.deadlineAt > 0.0 && now >= s.deadlineAt
  }

  /** The stop boundary: `updating` is entered exactly from an acknowledged,
      unexpired drain, and such a document has nothing left running. */
  lemma StopBoundary(s: State, id: MaintenanceId, now: real)
    requires Inv(s) && s.phase != Updating
    ensures Mutate(Prune(s, now), OpTransition(Updating, id), now).Some?
            <==> && s.safeToStop
                 && !DeadlinePassed(s, now)
                 && (id == NoMaintenance || id == s.maintenanceId)
    ensures Mutate(Prune(s, now), OpTransition(Updating, id), now).Some? ==>
              Quiescent(s) && Quiescent(Prune(s, now))
  {
    PruneKeepsInv(s, now);
    assert s.safeToStop ==> LiveLeases(s.leases, now) == map[];
  }

  ghost predicate StopWindow(s: State) {
    s.phase == Updating || s.phase == Validating || s.phase == RollingBack
  }

  ghost predicate Idle(s: State) {
    && s.leases == map[]
    && NothingClaimed(s.roots)
    && !AnyPendingContinuation(s.roots)
  }

  ghost predicate AdoptsLegacyWork(s: State, op: Op) {
    && op.OpAdopt?
    && s.requestedAt != 0.0
    && (op.startedAt == 0.0 || op.startedAt <= s.requestedAt)
  }

  lemma IdleSettlement(p: State, op: Op, now: real)
    requires Idle(p) && (op.OpComplete? || op.OpRetry? || op.OpDefer? || op.OpRelease? || op.OpHeartbeat?)
    ensures Mutate(p, op, now).Some? && Idle(Mutate(p, op, now).value) && Mutate(p, op, now).value.phase == p.phase
  {
    if !op.OpRelease? && !op.OpHeartbeat? {
      NothingHeld(p.roots, Keys(op.admissions));
    }
  }

  lemma IdleEnqueue(p: State, op: Op, now: real)
    requires StopWindow(p) && Idle(p) && (op.OpEnqueueRoot? || op.OpEnqueueIngress? || op.OpEnqueueContinuation?)
    ensures var r := Mutate(p, op, now); r.Some? ==> Idle(r.value) && r.value.phase == p.phase
  {
    var r := Mutate(p, op, now);
    if r.Some? {
      if op.OpEnqueueRoot? {
        IdleWithOneMore(p, r.value);
      } else if op.OpEnqueueIngress? {
        IdleWithOneMore(p, r.value);
      } else {
        IdleWithOneMore(p, r.value);
      }
    }
  }

  /** An idle document with nothing new, or one new root that waits for a claim. */
  lemma IdleWithOneMore(p: State, t: State)
    requires Idle(p) && t.leases == p.leases
    requires t.roots == p.roots
             || (|t.roots| == |p.roots| + 1 && t.roots[..|p.roots|] == p.roots
                 && t.roots[|p.roots|].claim == Unclaimed && t.roots[|p.roots|].transfer == None)
    ensures Idle(t)
  {
    assert forall i :: 0 <= i < |p.roots| ==> t.roots[i] == p.roots[i];
  }

  lemma IdleLifecycle(p: State, op: Op, now: real)
    requires Inv(p) && StopWindow(p) && Idle(p)
    requires !op.OpComplete? && !op.OpRetry? && !op.OpDefer? && !op.OpRelease? && !op.OpHeartbeat?
    requires !op.OpEnqueueRoot? && !op.OpEnqueueIngress? && !op.OpEnqueueContinuation?
    ensures var r := Mutate(p, op, now);
            r.Some? ==> && (StopWindow(r.value) || r.value.phase == Available)
                        && (Idle(r.value) <==> !AdoptsLegacyWork(p, op))
  {
    if AdoptsLegacyWork(p, op) {
      assert p.nextId in Mutate(p, op, now).value.leases;
    }
  }

  /** In the stop window an idle document stays idle under every call, with one
      exception: adopting legacy work that is dated before the fence. */
  lemma StopWindowStep(s: State, op: Op, now: real)
    requires Inv(s) && StopWindow(s) && Idle(s)
    ensures StopWindow(Apply(s, op, now)) || Apply(s, op, now).phase == Available
    ensures Idle(Apply(s, op, now)) <==> !AdoptsLegacyWork(s, op)
  {
    var p := Prune(s, now);
    assert Inv(p) by { PruneKeepsInv(s, now); }
    assert Idle(p) && p.phase == s.phase && p.requestedAt == s.requestedAt by { IdlePrune(s, now); }
    if op.OpComplete? || op.OpRetry? || op.OpDefer? || op.OpRelease? || op.OpHeartbeat? {
      IdleSettlement(p, op, now);
    } else if op.OpEnqueueRoot? || op.OpEnqueueIngress? || op.OpEnqueueContinuation? {
      IdleEnqueue(p, op, now);
    } else {
      IdleLifecycle(p, op, now);
      assert op.OpAdopt? ==> Mutate(p, op, now).Some?;
    }
  }

  lemma IdlePrune(s: State, now: real)
    requires Idle(s)
    ensures Idle(Prune(s, now))
    ensures s.phase != Draining ==> Prune(s, now).phase == s.phase
    ensures Prune(s, now).requestedAt == s.requestedAt
  {
    assert LiveLeases(s.leases, now) == map[];
  }

  lemma {:induction false} NothingHeld(roots: seq<Root>, keys: map<QueueId, (nat, nat)>)
    requires NothingClaimed(roots)
    ensures Unheld(roots, keys) == roots
  {
    if roots != [] {
      assert forall i :: 0 <= i < |roots[1..]| ==> roots[1..][i] == roots[i + 1];
      NothingHeld(roots[1..], keys);
    }
  }

  ghost predicate StaysIn(s: State, steps: seq<Step>, window: State -> bool)
    decreases |steps|
  {
    window(s) && (steps != [] ==> StaysIn(Apply(s, steps[0].op, steps[0].now), steps[1..], window))
  }

  /** Some call of the run adopts legacy work dated before the fence. */
  ghost predicate Adopts(s: State, steps: seq<Step>)
    decreases |steps|
  {
    steps != []
    && (AdoptsLegacyWork(s, steps[0].op) || Adopts(Apply(s, steps[0].op, steps[0].now), steps[1..]))
  }

  /** From the moment `updating` is entered until the phase is available again,
      nothing is leased, claimed or waiting to continue at any moment, if and only if
      no call adopts legacy work dated before the fence. */
  lemma {:induction false} NothingRunsDuringAnUpdate(s: State, steps: seq<Step>)
    requires Inv(s) && ValidRun(s, steps) && Idle(s)
    requires StaysIn(s, steps, (t: State) => StopWindow(t))
    ensures StaysIn(s, steps, (t: State) => Idle(t)) <==> !Adopts(s, steps)
    ensures !Adopts(s, steps) ==> Idle(Run(s, steps))
    decreases |steps|
  {
    if steps != [] {
      StopWindowStep(s, steps[0].op, steps[0].now);
      ApplyKeepsInv(s, steps[0].op, steps[0].now);
      if Idle(Apply(s, steps[0].op, steps[0].now)) {
        NothingRunsDuringAnUpdate(Apply(s, steps[0].op, steps[0].now), steps[1..]);
      }
    }
  }

  /** A document that is updating, validating or reports `updated` got there
      through a stop boundary that was quiescent and in time. */
  ghost predicate CrossedStopBoundary(s: State, steps: seq<Step>) {
    exists k :: 0 <= k < |steps| && BoundaryAt(s, steps, k)
  }

  ghost predicate BoundaryAt(s: State, steps: seq<Step>, k: nat)
    requires k < |steps|
  {
    var before := Run(s, steps[..k]);
    && steps[k].op.OpTransition? && steps[k].op.to == Updating
    && before.safeToStop && Quiescent(before) && !DeadlinePassed(before, steps[k].now)
  }

  lemma {:induction false} RunSnoc(s: State, steps: seq<Step>, last: Step)
    ensures Run(s, steps + [last]) == Apply(Run(s, steps), last.op, last.now)
    ensures ValidRun(s, steps + [last]) ==> ValidRun(s, steps) && Genuine(Run(s, steps), last.op)
    decreases |steps|
  {
    if steps == [] {
      assert steps + [last] == [last];
      assert [last][1..] == [];
    } else {
      assert (steps + [last])[1..] == steps[1..] + [last];
      RunSnoc(Apply(s, steps[0].op, steps[0].now), steps[1..], last);
    }
  }

  ghost predicate ClaimsUpdate(s: State) {
    s.phase == Updating || s.phase == Validating || s.lastOutcome == Updated
  }

  lemma OnlyTransitionsClaim(p: State, op: Op, now: real)
    requires Mutate(p, op, now).Some? && !ClaimsUpdate(p) && ClaimsUpdate(Mutate(p, op, now).value)
    ensures op.OpTransition? && op.to == Updating && p.phase != Updating
  {
    if op.OpClaim? && (p.phase == Available || p.phase == Draining) {
      ClaimFromFrame(p, 0, ClaimLimit(op.limit), op.excluded, op.unique, now);
    }
  }

  lemma UpdateClaimStep(s: State, op: Op, now: real)
    requires Inv(s) && Genuine(s, op)
    requires ClaimsUpdate(Apply(s, op, now)) && !ClaimsUpdate(s)
    ensures op.OpTransition? && op.to == Updating && s.safeToStop && Quiescent(s) && !DeadlinePassed(s, now)
  {
    var p := Prune(s, now);
    assert !ClaimsUpdate(p);
    assert Mutate(p, op, now).Some?;
    OnlyTransitionsClaim(p, op, now);
    StopBoundary(s, op.transitionId, now);
  }

  lemma {:induction false} ReportedUpdateWasStopped(steps: seq<Step>)
    requires ValidRun(DEFAULT_STATE, steps) && ClaimsUpdate(Run(DEFAULT_STATE, steps))
    ensures CrossedStopBoundary(DEFAULT_STATE, steps)
  {
    if steps != [] {
      var before := steps[..|steps| - 1];
      var last := steps[|steps| - 1];
      assert steps == before + [last];
      RunSnoc(DEFAULT_STATE, before, last);
      if ClaimsUpdate(Run(DEFAULT_STATE, before)) {
        ReportedUpdateWasStopped(before);
        var k :| 0 <= k < |before| && BoundaryAt(DEFAULT_STATE, before, k);
        assert before[..k] == steps[..k];
        assert BoundaryAt(DEFAULT_STATE, steps, k);
      } else {
        DefaultStateInv();
        RunKeepsInv(DEFAULT_STATE, before);
        UpdateClaimStep(Run(DEFAULT_STATE, before), last.op, last.now);
        assert BoundaryAt(DEFAULT_STATE, steps, |before|);
      }
    }
  }

  // ---------------------------------------------------------------------- fence

  function LeaseLineages(leases: map<nat, Lease>): set<nat> {
    set id | id in leases :: leases[id].lineage
  }

  function RootLineages(roots: seq<Root>): set<nat> {
    set r | r in roots && r.transfer.Some? :: r.transfer.value.lineage
  }

  /** The lineages that may still execute or continue. */
  function Lineages(s: State): set<nat> {
    LeaseLineages(s.leases) + RootLineages(s.roots)
  }

  /** The lineages brought in by adoption along a run. */
  function Adopted(s: State, steps: seq<Step>): set<nat>
    decreases |steps|
  {
    if steps == [] then {}
    else AdoptedBy(s, steps[0].op, steps[0].now) + Adopted(Apply(s, steps[0].op, steps[0].now), steps[1..])
  }

  function AdoptedBy(s: State, op: Op, now: real): set<nat> {
    if op.OpAdopt? && AdoptPrefenceActivity(Prune(s, now), op.kind, op.startedAt, op.ttl, now).1.Some?
    then {s.nextId}
    else {}
  }

  lemma PruneLineages(s: State, now: real)
    ensures Lineages(Prune(s, now)) <= Lineages(s)
  {
    var p := Prune(s, now);
    forall x | x in Lineages(p) ensures x in Lineages(s) {
      if x in LeaseLineages(p.leases) {
        var id :| id in p.leases && p.leases[id].lineage == x;
        assert id in s.leases;
      } else {
        var r :| r in p.roots && r.transfer.Some? && r.transfer.value.lineage == x;
        var i :| 0 <= i < |p.roots| && p.roots[i] == r;
        assert s.roots[i] in s.roots;
      }
    }
  }

  lemma ClaimRootLineages(s: State, i: nat, now: real)
    requires i < |s.roots| && s.roots[i].transfer.Some?
    ensures Lineages(ClaimRoot(s, i, now)) <= Lineages(s)
  {
    var t := ClaimRoot(s, i, now);
    assert s.roots[i] in s.roots;
    forall x | x in Lineages(t) ensures x in Lineages(s) {
      if x in LeaseLineages(t.leases) {
        var id :| id in t.leases && t.leases[id].lineage == x;
        assert id == s.nextId + 1 || id in s.leases;
      } else {
        var r :| r in t.roots && r.transfer.Some? && r.transfer.value.lineage == x;
        var j :| 0 <= j < |t.roots| && t.roots[j] == r;
        assert s.roots[j] in s.roots;
      }
    }
  }

  lemma {:induction false} ClaimFromLineages(s: State, i: nat, budget: nat, excluded: set<string>, unique: bool, now: real)
    requires i <= |s.roots| && s.phase == Draining
    ensures Lineages(ClaimFrom(s, i, budget, excluded, unique, now).0) <= Lineages(s)
    decreases |s.roots| - i
  {
    if i < |s.roots| && budget > 0 {
      if Claimable(s.phase, s.epoch, s.roots[i], excluded, now) {
        ClaimRootLineages(s, i, now);
        ClaimFromLineages(ClaimRoot(s, i, now), i + 1, budget - 1,
                          if unique then excluded + {s.roots[i].contact} else excluded, unique, now);
      } else {
        ClaimFromLineages(s, i + 1, budget, excluded, unique, now);
      }
    }
  }

  /** Both parts only ever shrink or keep what they had. */
  lemma SubLineages(s: State, t: State)
    requires forall id :: id in t.leases ==> id in s.leases && t.leases[id].lineage == s.leases[id].lineage
    requires forall r :: r in t.roots && r.transfer.Some? ==>
                           exists q :: q in s.roots && q.transfer == r.transfer
    ensures Lineages(t) <= Lineages(s)
  {
    forall x | x in Lineages(t) ensures x in Lineages(s) {
      if x in LeaseLineages(t.leases) {
        var id :| id in t.leases && t.leases[id].lineage == x;
        assert s.leases[id].lineage == x;
      } else {
        var r :| r in t.roots && r.transfer.Some? && r.transfer.value.lineage == x;
        var q :| q in s.roots && q.transfer == r.transfer;
      }
    }
  }

  lemma AcquireLineages(p: State, kind: string, parent: Option<ActivityToken>, ttl: real, now: real)
    requires Genuine(p, OpAcquire(kind, parent, ttl)) && p.phase != Available
    ensures Lineages(AcquireActivity(p, kind, parent, ttl, now).0) <= Lineages(p)
  {
    var t := AcquireActivity(p, kind, parent, ttl, now).0;
    forall x | x in LeaseLineages(t.leases) ensures x in LeaseLineages(p.leases) {
      var id :| id in t.leases && t.leases[id].lineage == x;
      assert id in p.leases || (parent.Some? && p.leases[parent.value.leaseId].lineage == x);
    }
  }

  lemma AdoptLineages(p: State, kind: string, startedAt: real, ttl: real, now: real)
    ensures var out := AdoptPrefenceActivity(p, kind, startedAt, ttl, now);
            Lineages(out.0) <= Lineages(p) + (if out.1.Some? then {p.nextId} else {})
  {
    var t := AdoptPrefenceActivity(p, kind, startedAt, ttl, now).0;
    forall x | x in LeaseLineages(t.leases) ensures x in LeaseLineages(p.leases) || x == p.nextId {
      var id :| id in t.leases && t.leases[id].lineage == x;
      assert id in p.leases || x == p.nextId;
    }
  }

  lemma HandOverLineages(p: State, contact: string, context: string, lease: nat, given: Option<QueueId>, now: real)
    ensures Lineages(EnqueueContinuation(p, contact, context, lease, given, now).0) <= Lineages(p)
  {
    var t := EnqueueContinuation(p, contact, context, lease, given, now).0;
    forall x | x in Lineages(t) ensures x in Lineages(p) {
      if x in LeaseLineages(t.leases) {
        var id :| id in t.leases && t.leases[id].lineage == x;
        assert id in p.leases && p.leases[id].lineage == x;
      } else {
        var r :| r in t.roots && r.transfer.Some? && r.transfer.value.lineage == x;
        assert r in p.roots || (lease in p.leases && p.leases[lease].lineage == x);
      }
    }
  }

  lemma SettlementLineages(p: State, op: Op, now: real)
    requires DistinctQueueIds(p.roots) && (op.OpComplete? || op.OpRetry? || op.OpDefer?)
    ensures Mutate(p, op, now).Some? && Lineages(Mutate(p, op, now).value) <= Lineages(p)
  {
    var t := Mutate(p, op, now).value;
    if op.OpComplete? {
      UnheldIsASubsequence(p.roots, Keys(op.admissions));
    } else {
      SameTransfers(p.roots, t.roots);
    }
    SubLineages(p, t);
  }

  lemma EnqueueLineages(p: State, op: Op, now: real)
    requires p.phase != Available && (op.OpEnqueueRoot? || op.OpEnqueueIngress?)
    ensures var r := Mutate(p, op, now); r.Some? ==> Lineages(r.value) <= Lineages(p)
  {
    var r := Mutate(p, op, now);
    if r.Some? {
      assert forall q :: q in r.value.roots && q.transfer.Some? ==> q in p.roots;
      SubLineages(p, r.value);
    }
  }

  lemma HeartbeatLineages(p: State, lease: nat, ttl: real, now: real)
    ensures Lineages(Heartbeat(p, lease, ttl, now).0) <= Lineages(p)
  {
    var t := Heartbeat(p, lease, ttl, now).0;
    SameTransfers(p.roots, t.roots);
    SubLineages(p, t);
  }

  lemma LifecycleLineages(p: State, op: Op, now: real)
    requires op.OpRequestDrain? || op.OpCancelDrain? || op.OpTransition? || op.OpAcknowledge? || op.OpRead? || op.OpRelease?
    ensures var r := Mutate(p, op, now); r.Some? ==> Lineages(r.value) <= Lineages(p)
  {
    var r := Mutate(p, op, now);
    if r.Some? {
      SubLineages(p, r.value);
    }
  }

  lemma FencedMutateLineages(p: State, op: Op, now: real)
    requires Inv(p) && Genuine(p, op) && p.phase != Available && Mutate(p, op, now).Some?
    ensures Lineages(Mutate(p, op, now).value) <=
            Lineages(p) + (if op.OpAdopt? && AdoptPrefenceActivity(p, op.kind, op.startedAt, op.ttl, now).1.Some?
                           then {p.nextId} else {})
  {
    match op
    case OpClaim(limit, excluded, unique) =>
      if p.phase == Draining {
        ClaimFromLineages(p, 0, ClaimLimit(limit), excluded, unique, now);
      }
    case OpAcquire(kind, parent, ttl) => AcquireLineages(p, kind, parent, ttl, now);
    case OpAdopt(kind, startedAt, ttl) => AdoptLineages(p, kind, startedAt, ttl, now);
    case OpEnqueueContinuation(contact, context, lease, given) =>
      HandOverLineages(p, contact, context, lease, given, now);
    case OpHeartbeat(lease, ttl) => HeartbeatLineages(p, lease, ttl, now);
    case OpEnqueueRoot(_, _, _) => EnqueueLineages(p, op, now);
    case OpEnqueueIngress(_, _, _) => EnqueueLineages(p, op, now);
    case OpComplete(_) => SettlementLineages(p, op, now);
    case OpRetry(_, _) => SettlementLineages(p, op, now);
    case OpDefer(_) => SettlementLineages(p, op, now);
    case _ => LifecycleLineages(p, op, now);
  }

  lemma SameTransfers(before: seq<Root>, after: seq<Root>)
    requires |before| == |after|
    requires forall i :: 0 <= i < |before| ==> after[i].transfer == before[i].transfer
    ensures forall r :: r in after && r.transfer.Some? ==> exists q :: q in before && q.transfer == r.transfer
  {
    forall r | r in after && r.transfer.Some? ensures exists q :: q in before && q.transfer == r.transfer {
      var i :| 0 <= i < |after| && after[i] == r;
      assert before[i] in before;
    }
  }

  /** A drain that expired is available within the transaction; only another
      request can raise the fence again. */
  lemma ReraiseOnlyByRequest(p: State, op: Op, now: real)
    requires p.phase == Available && Mutate(p, op, now).Some? && Mutate(p, op, now).value.phase != Available
    ensures op.OpRequestDrain? && Lineages(Mutate(p, op, now).value) == Lineages(p)
  {
    if op.OpClaim? {
      ClaimFromFrame(p, 0, ClaimLimit(op.limit), op.excluded, op.unique, now);
    }
  }

  lemma {:induction false} ClaimFromFrame(s: State, i: nat, budget: nat, excluded: set<string>, unique: bool, now: real)
    requires i <= |s.roots|
    ensures var t := ClaimFrom(s, i, budget, excluded, unique, now).0;
            && t == s.(leases := t.leases, roots := t.roots, safeToStop := t.safeToStop, nextId := t.nextId)
            && s.nextId <= t.nextId
            && |t.roots| == |s.roots|
            && forall j :: 0 <= j < |s.roots| ==>
                 t.roots[j] == s.roots[j] ||
                 (&& i <= j && s.roots[j].claim == Unclaimed && t.roots[j].claim.Claimed?
                  && t.roots[j] == s.roots[j].(claim := t.roots[j].claim)
                  && t.roots[j].claim.token >= s.nextId)
    decreases |s.roots| - i
  {
    if i < |s.roots| && budget > 0 {
      if Claimable(s.phase, s.epoch, s.roots[i], excluded, now) {
        ClaimFromFrame(ClaimRoot(s, i, now), i + 1, budget - 1,
                       if unique then excluded + {s.roots[i].contact} else excluded, unique, now);
      } else {
        ClaimFromFrame(s, i + 1, budget, excluded, unique, now);
      }
    }
  }

  /** While the fence stays up, no lineage appears that was not there when it was
      raised, except by adoption; and what is there was admitted before it. */
  lemma {:induction false} FenceAdmitsNothingNew(s: State, steps: seq<Step>)
    requires Inv(s) && ValidRun(s, steps)
    requires StaysIn(s, steps, (t: State) => t.phase != Available)
    ensures Lineages(Run(s, steps)) <= Lineages(s) + Adopted(s, steps)
    ensures var t := Run(s, steps);
            && (forall id :: id in t.leases ==> t.leases[id].admittedEpoch < t.epoch)
            && (forall r :: r in t.roots && r.transfer.Some? ==> r.transfer.value.admittedEpoch < t.epoch)
    decreases |steps|
  {
    if steps != [] {
      var op, now := steps[0].op, steps[0].now;
      var t := Apply(s, op, now);
      var p := Prune(s, now);
      PruneKeepsInv(s, now);
      PruneLineages(s, now);
      if Mutate(p, op, now).Some? {
        if p.phase == Available {
          ReraiseOnlyByRequest(p, op, now);
        } else {
          FencedMutateLineages(p, op, now);
        }
      }
      ApplyKeepsInv(s, op, now);
      FenceAdmitsNothingNew(t, steps[1..]);
    }
  }

  lemma EpochStep(s: State, op: Op, now: real)
    ensures s.epoch <= Apply(s, op, now).epoch
    ensures Apply(s, op, now).epoch != s.epoch ==> op.OpRequestDrain? && Apply(s, op, now).phase == Draining
  {
    var p := Prune(s, now);
    if op.OpClaim? && (p.phase == Available || p.phase == Draining) {
      ClaimFromFrame(p, 0, ClaimLimit(op.limit), op.excluded, op.unique, now);
    }
  }

  lemma {:induction false} EpochNeverDecreases(s: State, steps: seq<Step>)
    ensures s.epoch <= Run(s, steps).epoch
    decreases |steps|
  {
    if steps != [] {
      EpochStep(s, steps[0].op, steps[0].now);
      EpochNeverDecreases(Apply(s, steps[0].op, steps[0].now), steps[1..]);
    }
  }
}
