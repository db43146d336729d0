/** What happens to one queued root: it is never lost, it is settled at most once
    per admission, it is backed off within a bound, and a drain always gets to
    run the continuations it waits for. */
module MaintenanceRoots {
  import opened Common
  import opened MaintenanceModel
  import opened MaintenanceInvariant
  import opened MaintenanceProperties

  // -------------------------------------------------------------------- backoff

  lemma {:induction false} Power2Grows(a: nat, b: nat)
    requires a <= b
    ensures 1 <= Power2(a) <= Power2(b)
    decreases b
  {
    if a < b {
      Power2Grows(a, b - 1);
    } else if b > 0 {
      Power2Grows(a - 1, b - 1);
    }
  }

  lemma ScaleOrder(x: real, a: nat, b: nat)
    requires x >= 0.0 && a <= b
    ensures x * (a as real) <= x * (b as real)
  {
  }

  lemma ScaledBackoff(base: real, few: nat, many: nat)
    requires base >= 0.0 && 1 <= few <= many
    ensures Min(base, RETRY_BACKOFF_CAP_SECONDS)
            <= Min(base * (few as real), RETRY_BACKOFF_CAP_SECONDS)
            <= Min(base * (many as real), RETRY_BACKOFF_CAP_SECONDS)
            <= RETRY_BACKOFF_CAP_SECONDS
  {
    var once, more := base * (few as real), base * (many as real);
    assert base <= once <= more by {
      ScaleOrder(base, few, many);
      ScaleOrder(base, 1, few);
      assert base * (1 as real) == base;
    }
    CapOrder(base, once);
    CapOrder(once, more);
  }

  lemma CapOrder(x: real, y: real)
    requires x <= y
    ensures Min(x, RETRY_BACKOFF_CAP_SECONDS) <= Min(y, RETRY_BACKOFF_CAP_SECONDS) <= RETRY_BACKOFF_CAP_SECONDS
  {
  }

  /** The delay before a retry never shrinks as failures add up, never falls
      below the requested delay (up to the cap) and never exceeds 300 s. */
  lemma BackoffIsMonotoneAndCapped(delay: real, fewer: int, more: int)
    requires fewer <= more
    ensures Min(Max(0.0, delay), RETRY_BACKOFF_CAP_SECONDS)
            <= RetryBackoff(delay, fewer)
            <= RetryBackoff(delay, more)
            <= RETRY_BACKOFF_CAP_SECONDS
    ensures 0.0 <= RetryBackoff(delay, fewer)
  {
    Power2Grows(0, Doublings(fewer));
    Power2Grows(Doublings(fewer), Doublings(more));
    ScaledBackoff(Max(0.0, delay), Power2(Doublings(fewer)), Power2(Doublings(more)));
  }

  /** Each of the first six further failures doubles the delay below the cap;
      after the seventh it stays where it is. */
  lemma BackoffDoubles(delay: real, attempts: int)
    requires 1 <= attempts
    ensures RetryBackoff(delay, attempts + 1) ==
            if attempts <= 6 then Min(2.0 * RetryBackoff(delay, attempts), RETRY_BACKOFF_CAP_SECONDS)
            else RetryBackoff(delay, attempts)
  {
    if attempts <= 6 {
      assert Doublings(attempts + 1) == Doublings(attempts) + 1;
      var base, scale := Max(0.0, delay), Power2(Doublings(attempts));
      assert base * ((2 * scale) as real) == 2.0 * (base * (scale as real));
    }
  }

  // -------------------------------------------------------- roots are never lost

  /** The part of a root no operation may touch. */
  predicate SameRoot(a: Root, b: Root) {
    && a.queueId == b.queueId
    && a.contact == b.contact
    && a.context == b.context
    && a.enqueuedAt == b.enqueuedAt
    && a.enqueuedEpoch == b.enqueuedEpoch
    && a.transfer == b.transfer
  }

  /** Position by position the old queue is still there, at most one root longer. */
  ghost predicate Extends(before: seq<Root>, after: seq<Root>) {
    && |before| <= |after| <= |before| + 1
    && forall i :: 0 <= i < |before| ==> SameRoot(before[i], after[i])
  }

  lemma EnqueueExtends(p: State, op: Op, now: real)
    requires op.OpEnqueueRoot? || op.OpEnqueueIngress? || op.OpEnqueueContinuation?
    requires Mutate(p, op, now).Some?
    ensures Extends(p.roots, Mutate(p, op, now).value.roots)
  {
  }

  lemma MutateExtends(p: State, op: Op, now: real)
    requires !op.OpComplete? && Mutate(p, op, now).Some?
    ensures Extends(p.roots, Mutate(p, op, now).value.roots)
  {
    if op.OpEnqueueRoot? || op.OpEnqueueIngress? || op.OpEnqueueContinuation? {
      EnqueueExtends(p, op, now);
    } else if op.OpClaim? && (p.phase == Available || p.phase == Draining) {
      ClaimFromFrame(p, 0, ClaimLimit(op.limit), op.excluded, op.unique, now);
    }
  }

  /** No operation other than completion removes or reorders a root. */
  lemma OnlyCompletionRemoves(s: State, op: Op, now: real)
    requires !op.OpComplete?
    ensures Extends(s.roots, Apply(s, op, now).roots)
  {
    var p := Prune(s, now);
    if Mutate(p, op, now).Some? {
      MutateExtends(p, op, now);
    }
  }

  /** Completion removes exactly the roots whose current claim was presented. */
  lemma CompletionRemovesExactlyTheHeld(s: State, admissions: seq<Admission>, now: real)
    requires Inv(s)
    ensures var p, t := Prune(s, now), Apply(s, OpComplete(admissions), now);
            && (forall r :: r in t.roots <==> r in p.roots && !Holds(r, Keys(admissions)))
            && (forall id :: id in t.leases <==>
                  id in p.leases && !exists r :: r in p.roots && Holds(r, Keys(admissions)) && r.claim.lease == id)
            && (forall a, b :: 0 <= a < b < |p.roots| && BothStay(p.roots[a], p.roots[b], Keys(admissions)) ==>
                  InOrder(t.roots, p.roots[a], p.roots[b]))
  {
    PruneKeepsInv(s, now);
    var p := Prune(s, now);
    UnheldIsASubsequence(p.roots, Keys(admissions));
    forall a, b | 0 <= a < b < |p.roots| && BothStay(p.roots[a], p.roots[b], Keys(admissions))
      ensures InOrder(Unheld(p.roots, Keys(admissions)), p.roots[a], p.roots[b])
    {
      CompletionKeepsOrder(p.roots, Keys(admissions), a, b);
    }
  }

  predicate BothStay(a: Root, b: Root, keys: map<QueueId, (nat, nat)>) {
    !Holds(a, keys) && !Holds(b, keys)
  }

  ghost predicate InOrder(roots: seq<Root>, first: Root, second: Root) {
    exists i, j :: 0 <= i < j < |roots| && roots[i] == first && roots[j] == second
  }

  /** The roots that stay keep their order. */
  lemma {:induction false} CompletionKeepsOrder(roots: seq<Root>, keys: map<QueueId, (nat, nat)>, a: nat, b: nat)
    requires a < b < |roots| && !Holds(roots[a], keys) && !Holds(roots[b], keys)
    ensures InOrder(Unheld(roots, keys), roots[a], roots[b])
  {
    var rest := roots[1..];
    var out := Unheld(rest, keys);
    if a > 0 {
      CompletionKeepsOrder(rest, keys, a - 1, b - 1);
      var i, j :| 0 <= i < j < |out| && out[i] == rest[a - 1] && out[j] == rest[b - 1];
      var shift := if Holds(roots[0], keys) then 0 else 1;
      assert Unheld(roots, keys)[i + shift] == roots[a] && Unheld(roots, keys)[j + shift] == roots[b];
    } else {
      UnheldContains(rest, keys, b - 1);
      var j :| 0 <= j < |out| && out[j] == rest[b - 1];
      assert Unheld(roots, keys)[0] == roots[a] && Unheld(roots, keys)[j + 1] == roots[b];
    }
  }

  lemma {:induction false} UnheldContains(roots: seq<Root>, keys: map<QueueId, (nat, nat)>, b: nat)
    requires b < |roots| && !Holds(roots[b], keys)
    ensures exists j :: 0 <= j < |Unheld(roots, keys)| && Unheld(roots, keys)[j] == roots[b]
  {
    var rest := roots[1..];
    if b > 0 {
      UnheldContains(rest, keys, b - 1);
      var j :| 0 <= j < |Unheld(rest, keys)| && Unheld(rest, keys)[j] == rest[b - 1];
      assert Unheld(roots, keys)[if Holds(roots[0], keys) then j else j + 1] == roots[b];
    } else {
      assert Unheld(roots, keys)[0] == roots[0];
    }
  }

  ghost predicate Queued(s: State, id: QueueId) {
    exists i :: 0 <= i < |s.roots| && s.roots[i].queueId == id
  }

  ghost predicate CompletedBy(s: State, op: Op, now: real, id: QueueId)
    requires op.OpComplete?
  {
    exists r :: r in Prune(s, now).roots && r.queueId == id && Holds(r, Keys(op.admissions))
  }

  lemma SurvivingStep(s: State, op: Op, now: real, id: QueueId)
    requires Inv(s) && Queued(s, id) && !(op.OpComplete? && CompletedBy(s, op, now, id))
    ensures Queued(Apply(s, op, now), id)
  {
    var i :| 0 <= i < |s.roots| && s.roots[i].queueId == id;
    var t := Apply(s, op, now);
    if op.OpComplete? {
      CompletionRemovesExactlyTheHeld(s, op.admissions, now);
      var p := Prune(s, now);
      assert p.roots[i] in p.roots && p.roots[i].queueId == id;
      var j :| 0 <= j < |t.roots| && t.roots[j] == p.roots[i];
      assert t.roots[j].queueId == id;
    } else {
      OnlyCompletionRemoves(s, op, now);
      assert t.roots[i].queueId == id;
    }
  }

  /** Some step of the run is a completion that held the root's claim of that moment. */
  ghost predicate CompletedAlong(s: State, steps: seq<Step>, id: QueueId)
    decreases |steps|
  {
    steps != [] &&
    var op, now := steps[0].op, steps[0].now;
    || (op.OpComplete? && CompletedBy(s, op, now, id))
    || CompletedAlong(Apply(s, op, now), steps[1..], id)
  }

  /** Along any run, a root that is gone was completed by a caller holding the
      claim current at that moment. */
  lemma {:induction false} NoRootIsLost(s: State, steps: seq<Step>, id: QueueId)
    requires Inv(s) && ValidRun(s, steps) && Queued(s, id)
    ensures Queued(Run(s, steps), id) || CompletedAlong(s, steps, id)
    decreases |steps|
  {
    if steps != [] {
      var op, now := steps[0].op, steps[0].now;
      if !(op.OpComplete? && CompletedBy(s, op, now, id)) {
        SurvivingStep(s, op, now, id);
        ApplyKeepsInv(s, op, now);
        NoRootIsLost(Apply(s, op, now), steps[1..], id);
      }
    }
  }

  // ---------------------------------------------------------- stale settlements

  /** The admission still names the current claim of its root. */
  ghost predicate Current(s: State, a: Admission) {
    exists r :: r in s.roots && Holds(r, Keys([a]))
  }

  lemma KeysOfOne(a: Admission)
    ensures Keys([a]) == map[a.queueId := (a.token, a.activity.leaseId)]
  {
    assert [a][..0] == [];
  }

  /** A settlement has an effect exactly when its admission is current. */
  lemma SettlementNeedsACurrentClaim(p: State, a: Admission, delay: real, now: real)
    requires Inv(p)
    ensures CompleteRoots(p, [a]) == p <==> !Current(p, a)
    ensures RetryRoots(p, [a], delay, now) == p <==> !Current(p, a)
    ensures DeferRoots(p, [a]) == p <==> !Current(p, a)
  {
    var keys := Keys([a]);
    if Current(p, a) {
      var r :| r in p.roots && Holds(r, keys);
      var i :| 0 <= i < |p.roots| && p.roots[i] == r;
      UnheldIsASubsequence(p.roots, keys);
      assert r !in Unheld(p.roots, keys);
      assert RetryRoots(p, [a], delay, now).roots[i].claim == Unclaimed;
      assert DeferRoots(p, [a]).roots[i].claim == Unclaimed;
    } else {
      NothingMatches(p.roots, keys);
      assert HeldLeases(p.roots, keys) == {};
      assert p.leases - {} == p.leases;
      assert RetryHeld(p.roots, keys, delay, now) == p.roots;
      assert DeferHeld(p.roots, keys) == p.roots;
    }
  }

  lemma {:induction false} NothingMatches(roots: seq<Root>, keys: map<QueueId, (nat, nat)>)
    requires forall r :: r in roots ==> !Holds(r, keys)
    ensures Unheld(roots, keys) == roots
  {
    if roots != [] {
      assert forall r :: r in roots[1..] ==> r in roots;
      assert roots[0] in roots;
      NothingMatches(roots[1..], keys);
    }
  }

  ghost predicate TokenInUse(s: State, token: nat) {
    exists i :: 0 <= i < |s.roots| && s.roots[i].claim.Claimed? && s.roots[i].claim.token == token
  }

  lemma TokensStepByClaim(p: State, op: Op, now: real)
    requires (op.OpClaim? || op.OpEnqueueRoot?) && Mutate(p, op, now).Some?
    ensures var t := Mutate(p, op, now).value;
            && p.nextId <= t.nextId
            && (forall i :: 0 <= i < |t.roots| && t.roots[i].claim.Claimed? ==>
                  t.roots[i].claim.token >= p.nextId || (i < |p.roots| && t.roots[i] == p.roots[i]))
  {
    if op.OpClaim? && (p.phase == Available || p.phase == Draining) {
      ClaimFromFrame(p, 0, ClaimLimit(op.limit), op.excluded, op.unique, now);
    }
  }

  /** Claims are only kept, never made. */
  ghost predicate TokensKept(p: State, t: State) {
    && p.nextId <= t.nextId
    && (forall i :: 0 <= i < |t.roots| && t.roots[i].claim.Claimed? ==>
          i < |p.roots| && p.roots[i].claim.Claimed? && p.roots[i].claim.token == t.roots[i].claim.token)
  }

  lemma TokensStepIntake(p: State, op: Op, now: real)
    requires (op.OpEnqueueIngress? || op.OpEnqueueContinuation?) && Mutate(p, op, now).Some?
    ensures TokensKept(p, Mutate(p, op, now).value)
  {
  }

  lemma TokensStepLeases(p: State, op: Op, now: real)
    requires (LeaseOp(op) || LifecycleOp(op)) && Mutate(p, op, now).Some?
    ensures TokensKept(p, Mutate(p, op, now).value)
  {
  }

  lemma TokensStepSettle(p: State, op: Op, now: real)
    requires (op.OpRetry? || op.OpDefer?) && Mutate(p, op, now).Some?
    ensures TokensKept(p, Mutate(p, op, now).value)
  {
  }

  lemma TokensStepOtherwise(p: State, op: Op, now: real)
    requires !op.OpClaim? && !op.OpEnqueueRoot? && !op.OpComplete? && Mutate(p, op, now).Some?
    ensures TokensKept(p, Mutate(p, op, now).value)
  {
    if QueueOp(op) {
      TokensStepIntake(p, op, now);
    } else if SettleOp(op) {
      TokensStepSettle(p, op, now);
    } else {
      TokensStepLeases(p, op, now);
    }
  }

  lemma SpentTokenStep(s: State, op: Op, now: real, token: nat)
    requires Inv(s) && token < s.nextId && !TokenInUse(s, token)
    ensures token < Apply(s, op, now).nextId && !TokenInUse(Apply(s, op, now), token)
  {
    var p, t := Prune(s, now), Apply(s, op, now);
    assert !TokenInUse(p, token);
    if op.OpComplete? {
      assert DistinctQueueIds(p.roots) by { PruneKeepsInv(s, now); }
      UnheldIsASubsequence(p.roots, Keys(op.admissions));
      forall i | 0 <= i < |t.roots| && t.roots[i].claim.Claimed? ensures t.roots[i].claim.token != token {
        assert t.roots[i] in p.roots;
      }
    } else if Mutate(p, op, now).Some? {
      if op.OpClaim? || op.OpEnqueueRoot? {
        TokensStepByClaim(p, op, now);
      } else {
        TokensStepOtherwise(p, op, now);
      }
    }
  }

  /** Once an admission is stale it stays stale: no later call by its holder can
      settle the root again, so each admission settles at most once. */
  lemma {:induction false} StaleForever(s: State, steps: seq<Step>, a: Admission)
    requires Inv(s) && ValidRun(s, steps) && a.token < s.nextId && !TokenInUse(s, a.token)
    ensures !Current(Run(s, steps), a) && !TokenInUse(Run(s, steps), a.token)
    decreases |steps|
  {
    if steps == [] {
      KeysOfOne(a);
      forall r | r in s.roots ensures !Holds(r, Keys([a])) {
        var i :| 0 <= i < |s.roots| && s.roots[i] == r;
      }
    } else {
      SpentTokenStep(s, steps[0].op, steps[0].now, a.token);
      ApplyKeepsInv(s, steps[0].op, steps[0].now);
      StaleForever(Apply(s, steps[0].op, steps[0].now), steps[1..], a);
    }
  }

  /** Settling spends the token. */
  lemma SettlingSpendsTheToken(p: State, a: Admission, delay: real, now: real)
    requires Inv(p) && Current(p, a)
    ensures !TokenInUse(CompleteRoots(p, [a]), a.token)
    ensures !TokenInUse(RetryRoots(p, [a], delay, now), a.token)
    ensures !TokenInUse(DeferRoots(p, [a]), a.token)
  {
    KeysOfOne(a);
    var keys := Keys([a]);
    var r :| r in p.roots && Holds(r, keys);
    var k :| 0 <= k < |p.roots| && p.roots[k] == r;
    forall i | 0 <= i < |p.roots| && p.roots[i].claim.Claimed? && p.roots[i].claim.token == a.token
      ensures i == k
    {
    }
    UnheldIsASubsequence(p.roots, keys);
    var t := CompleteRoots(p, [a]);
    forall i | 0 <= i < |t.roots| && t.roots[i].claim.Claimed? ensures t.roots[i].claim.token != a.token {
      assert t.roots[i] in p.roots;
    }
  }

  /** An admission handed out by a claim is current, under a live lease that
      carries the identity it was issued with, and no other admission of the same
      call names the same root, token or lease. */
  lemma {:induction false} ClaimedAdmissionsAreCurrent(s: State, i: nat, budget: nat, excluded: set<string>, unique: bool, now: real)
    requires Inv(s) && i <= |s.roots| && (s.phase == Available || s.phase == Draining)
    ensures var (t, out) := ClaimFrom(s, i, budget, excluded, unique, now);
            && |out| <= budget
            && (forall a :: a in out ==> AdmissionStands(t, i, a) && a.token >= s.nextId && a.contact !in excluded)
            && SeparateAdmissions(out, unique)
    decreases |s.roots| - i
  {
    if i < |s.roots| && budget > 0 {
      if Claimable(s.phase, s.epoch, s.roots[i], excluded, now) {
        var c := ClaimRoot(s, i, now);
        var excluded' := if unique then excluded + {s.roots[i].contact} else excluded;
        ClaimRootKeepsInv(s, i, now);
        ClaimedAdmissionsAreCurrent(c, i + 1, budget - 1, excluded', unique, now);
        var (t, rest) := ClaimFrom(c, i + 1, budget - 1, excluded', unique, now);
        FirstAdmissionStands(s, i, budget, excluded', unique, now);
        SeparateFirst(t, i, AdmissionOf(s, i, now), rest, unique);
        LowerFrom(t, i, rest);
      } else {
        ClaimedAdmissionsAreCurrent(s, i + 1, budget, excluded, unique, now);
        var (t, out) := ClaimFrom(s, i + 1, budget, excluded, unique, now);
        LowerFrom(t, i, out);
      }
    }
  }

  ghost predicate SeparateAdmissions(out: seq<Admission>, unique: bool) {
    forall x, y :: 0 <= x < y < |out| ==> Separate(out[x], out[y], unique)
  }

  predicate Separate(a: Admission, b: Admission, unique: bool) {
    && a.queueId != b.queueId
    && a.token != b.token
    && a.activity.leaseId != b.activity.leaseId
    && (unique ==> a.contact != b.contact)
  }

  lemma LowerFrom(t: State, i: nat, out: seq<Admission>)
    requires forall a :: a in out ==> AdmissionStands(t, i + 1, a)
    ensures forall a :: a in out ==> AdmissionStands(t, i, a)
  {
    forall a | a in out ensures AdmissionStands(t, i, a) {
      assert AdmissionStands(t, i + 1, a);
    }
  }

  lemma FirstAdmissionStands(s: State, i: nat, budget: nat, excluded: set<string>, unique: bool, now: real)
    requires Inv(s) && i < |s.roots| && budget > 0 && (s.phase == Available || s.phase == Draining)
    requires Inv(ClaimRoot(s, i, now))
    ensures var c := ClaimRoot(s, i, now);
            var t := ClaimFrom(c, i + 1, budget - 1, excluded, unique, now).0;
            i < |t.roots| && RootCarries(t.roots[i], AdmissionOf(s, i, now)) && DistinctQueueIds(t.roots)
            && ExclusiveClaims(t.roots) && AdmissionStands(t, i, AdmissionOf(s, i, now))
  {
    var c := ClaimRoot(s, i, now);
    var t := ClaimFrom(c, i + 1, budget - 1, excluded, unique, now).0;
    assert DistinctQueueIds(t.roots) && ExclusiveClaims(t.roots) by {
      ClaimFromKeepsInv(c, i + 1, budget - 1, excluded, unique, now);
    }
    FirstAdmissionCarried(s, i, budget, excluded, unique, now);
  }

  lemma FirstAdmissionCarried(s: State, i: nat, budget: nat, excluded: set<string>, unique: bool, now: real)
    requires Inv(s) && i < |s.roots| && budget > 0 && (s.phase == Available || s.phase == Draining)
    requires Inv(ClaimRoot(s, i, now))
    ensures var t := ClaimFrom(ClaimRoot(s, i, now), i + 1, budget - 1, excluded, unique, now).0;
            i < |t.roots| && RootCarries(t.roots[i], AdmissionOf(s, i, now))
            && AdmissionStands(t, i, AdmissionOf(s, i, now))
  {
    var c := ClaimRoot(s, i, now);
    ClaimFromFrame(c, i + 1, budget - 1, excluded, unique, now);
    ClaimFromLeases(c, i + 1, budget - 1, excluded, unique, now, s.nextId + 1);
    var t := ClaimFrom(c, i + 1, budget - 1, excluded, unique, now).0;
    assert t.roots[i] == c.roots[i];
    assert RootCarries(t.roots[i], AdmissionOf(s, i, now));
  }

  lemma SeparateFirst(t: State, i: nat, first: Admission, rest: seq<Admission>, unique: bool)
    requires DistinctQueueIds(t.roots) && ExclusiveClaims(t.roots)
    requires i < |t.roots| && RootCarries(t.roots[i], first)
    requires forall a :: a in rest ==> AdmissionStands(t, i + 1, a)
    requires unique ==> forall a :: a in rest ==> a.contact != first.contact
    requires SeparateAdmissions(rest, unique)
    ensures SeparateAdmissions([first] + rest, unique)
  {
    var out := [first] + rest;
    forall x, y | 0 <= x < y < |out| ensures Separate(out[x], out[y], unique) {
      assert out[y] == rest[y - 1] && rest[y - 1] in rest;
      if x == 0 {
        OtherRootsAdmission(t, i, first, rest[y - 1]);
      } else {
        assert out[x] == rest[x - 1];
      }
    }
  }

  lemma OtherRootsAdmission(t: State, i: nat, first: Admission, a: Admission)
    requires DistinctQueueIds(t.roots) && ExclusiveClaims(t.roots)
    requires i < |t.roots| && RootCarries(t.roots[i], first) && AdmissionStands(t, i + 1, a)
    ensures Separate(first, a, false)
  {
    var j :| i + 1 <= j < |t.roots| && RootCarries(t.roots[j], a);
  }

  predicate RootCarries(r: Root, a: Admission) {
    && r.queueId == a.queueId && r.contact == a.contact && r.context == a.context
    && r.claim.Claimed? && r.claim.token == a.token && r.claim.lease == a.activity.leaseId
  }

  ghost predicate AdmissionStands(s: State, from: nat, a: Admission) {
    && (exists j :: from <= j < |s.roots| && RootCarries(s.roots[j], a))
    && a.activity.leaseId in s.leases
    && s.leases[a.activity.leaseId].lineage == a.activity.lineage
    && s.leases[a.activity.leaseId].admittedEpoch == a.activity.admittedEpoch
  }

  /** A lease issued earlier in the same claim pass is left alone by the rest. */
  lemma {:induction false} ClaimFromLeases(s: State, i: nat, budget: nat, excluded: set<string>, unique: bool, now: real, id: nat)
    requires Inv(s) && i <= |s.roots| && id in s.leases && (s.phase == Available || s.phase == Draining)
    ensures id in ClaimFrom(s, i, budget, excluded, unique, now).0.leases
    ensures ClaimFrom(s, i, budget, excluded, unique, now).0.leases[id] == s.leases[id]
    decreases |s.roots| - i
  {
    if i < |s.roots| && budget > 0 {
      if Claimable(s.phase, s.epoch, s.roots[i], excluded, now) {
        ClaimRootKeepsInv(s, i, now);
        assert id < s.nextId;
        ClaimFromLeases(ClaimRoot(s, i, now), i + 1, budget - 1,
                        if unique then excluded + {s.roots[i].contact} else excluded, unique, now, id);
      } else {
        ClaimFromLeases(s, i + 1, budget, excluded, unique, now, id);
      }
    }
  }

  // ------------------------------------------------- a drain cannot be wedged

  lemma {:induction false} ClaimFromReachesContinuations(s: State, i: nat, budget: nat, now: real) returns (t: State)
    requires Inv(s) && i <= |s.roots| && (s.phase == Available || s.phase == Draining)
    requires budget >= |s.roots| - i
    requires forall j :: i <= j < |s.roots| && PendingContinuation(s.roots[j]) ==> s.roots[j].notBefore <= now
    ensures t == ClaimFrom(s, i, budget, {}, false, now).0
    ensures forall j :: i <= j < |t.roots| ==> !PendingContinuation(t.roots[j])
    decreases |s.roots| - i
  {
    t := s;
    if i < |s.roots| {
      if Claimable(s.phase, s.epoch, s.roots[i], {}, now) {
        ClaimRootKeepsInv(s, i, now);
        t := ClaimFromReachesContinuations(ClaimRoot(s, i, now), i + 1, budget - 1, now);
        ClaimFromFrame(ClaimRoot(s, i, now), i + 1, budget - 1, {}, false, now);
      } else {
        t := ClaimFromReachesContinuations(s, i + 1, budget, now);
        ClaimFromFrame(s, i + 1, budget, {}, false, now);
      }
    }
  }

  /** Once every pending continuation is due, one unlimited claim leaves none:
      the fence never excludes work it is itself waiting for. */
  lemma DrainCannotBeWedged(s: State, limit: int, now: real)
    requires Inv(s) && (s.phase == Available || s.phase == Draining) && limit >= |s.roots|
    requires forall r :: r in s.roots && r.transfer.Some? ==> r.notBefore <= now
    ensures !AnyPendingContinuation(Apply(s, OpClaim(limit, {}, false), now).roots)
  {
    PruneKeepsInv(s, now);
    var p := Prune(s, now);
    forall j | 0 <= j < |p.roots| && PendingContinuation(p.roots[j]) ensures p.roots[j].notBefore <= now {
      assert s.roots[j] in s.roots;
    }
    var t := ClaimFromReachesContinuations(p, 0, ClaimLimit(limit), now);
    assert Apply(s, OpClaim(limit, {}, false), now) == t;
  }

  /** The delay on a root stems from a retry that named it and is at most 300 s
      after that retry. */
  ghost predicate DelayExplained(steps: seq<Step>, r: Root) {
    r.notBefore == 0.0 ||
    exists k :: 0 <= k < |steps| && steps[k].op.OpRetry?
                && r.queueId in Keys(steps[k].op.admissions)
                && steps[k].now <= r.notBefore <= steps[k].now + RETRY_BACKOFF_CAP_SECONDS
  }

  /** The delay of a root after one change: none, the one it had, or a retry's. */
  predicate DelayFrom(p: State, op: Op, now: real, j: nat, r: Root) {
    || r.notBefore == 0.0
    || (j < |p.roots| && r.queueId == p.roots[j].queueId && r.notBefore == p.roots[j].notBefore)
    || (&& op.OpRetry? && r.queueId in Keys(op.admissions)
        && now <= r.notBefore <= now + RETRY_BACKOFF_CAP_SECONDS)
  }

  lemma DelayQueue(p: State, op: Op, now: real, j: nat)
    requires QueueOp(op) && Mutate(p, op, now).Some? && j < |Mutate(p, op, now).value.roots|
    ensures DelayFrom(p, op, now, j, Mutate(p, op, now).value.roots[j])
  {
    if op.OpClaim? && (p.phase == Available || p.phase == Draining) {
      ClaimFromFrame(p, 0, ClaimLimit(op.limit), op.excluded, op.unique, now);
    }
  }

  lemma DelaySettle(p: State, op: Op, now: real, j: nat)
    requires (op.OpRetry? || op.OpDefer?) && Mutate(p, op, now).Some? && j < |Mutate(p, op, now).value.roots|
    ensures DelayFrom(p, op, now, j, Mutate(p, op, now).value.roots[j])
  {
    if op.OpRetry? {
      BackoffIsMonotoneAndCapped(op.delay, p.roots[j].attempts + 1, p.roots[j].attempts + 1);
    }
  }

  lemma DelayLeases(p: State, op: Op, now: real, j: nat)
    requires (LeaseOp(op) || LifecycleOp(op)) && Mutate(p, op, now).Some? && j < |Mutate(p, op, now).value.roots|
    ensures DelayFrom(p, op, now, j, Mutate(p, op, now).value.roots[j])
  {
  }

  lemma DelayMutate(p: State, op: Op, now: real, j: nat)
    requires !op.OpComplete? && Mutate(p, op, now).Some? && j < |Mutate(p, op, now).value.roots|
    ensures DelayFrom(p, op, now, j, Mutate(p, op, now).value.roots[j])
  {
    if QueueOp(op) {
      DelayQueue(p, op, now, j);
    } else if SettleOp(op) {
      DelaySettle(p, op, now, j);
    } else {
      DelayLeases(p, op, now, j);
    }
  }

  ghost predicate DelayStands(s: State, r: Root) {
    exists q :: q in s.roots && q.queueId == r.queueId && q.notBefore == r.notBefore
  }

  lemma DelayUnheld(s: State, admissions: seq<Admission>, now: real, r: Root)
    requires Inv(s) && r in Apply(s, OpComplete(admissions), now).roots
    ensures DelayStands(s, r)
  {
    var p := Prune(s, now);
    assert r in p.roots by {
      PruneKeepsInv(s, now);
      UnheldIsASubsequence(p.roots, Keys(admissions));
    }
    PrunedDelay(s, now, r);
  }

  lemma PrunedDelay(s: State, now: real, r: Root)
    requires r in Prune(s, now).roots
    ensures DelayStands(s, r)
  {
    var p := Prune(s, now);
    var j :| 0 <= j < |p.roots| && p.roots[j] == r;
    assert s.roots[j] in s.roots;
  }

  lemma DelayStep(s: State, op: Op, now: real, r: Root)
    requires Inv(s) && r in Apply(s, op, now).roots
    ensures || r.notBefore == 0.0 || DelayStands(s, r)
            || (&& op.OpRetry? && r.queueId in Keys(op.admissions)
                && now <= r.notBefore <= now + RETRY_BACKOFF_CAP_SECONDS)
  {
    var p, t := Prune(s, now), Apply(s, op, now);
    if op.OpComplete? {
      DelayUnheld(s, op.admissions, now, r);
    } else {
      var j :| 0 <= j < |t.roots| && t.roots[j] == r;
      if j < |s.roots| {
        assert s.roots[j] in s.roots;
      }
      if Mutate(p, op, now).Some? {
        DelayMutate(p, op, now, j);
      }
    }
  }

  lemma {:induction false} DelaysComeFromRetries(steps: seq<Step>, r: Root)
    requires ValidRun(DEFAULT_STATE, steps) && r in Run(DEFAULT_STATE, steps).roots
    ensures DelayExplained(steps, r)
    decreases |steps|
  {
    if steps != [] && r.notBefore != 0.0 {
      var before, last := steps[..|steps| - 1], steps[|steps| - 1];
      assert steps == before + [last];
      RunSnoc(DEFAULT_STATE, before, last);
      DefaultStateInv();
      RunKeepsInv(DEFAULT_STATE, before);
      var s := Run(DEFAULT_STATE, before);
      DelayStep(s, last.op, last.now, r);
      if last.op.OpRetry? && r.queueId in Keys(last.op.admissions)
         && last.now <= r.notBefore <= last.now + RETRY_BACKOFF_CAP_SECONDS {
        assert steps[|steps| - 1] == last;
      } else {
        var q :| q in s.roots && q.queueId == r.queueId && q.notBefore == r.notBefore;
        DelaysComeFromRetries(before, q);
        var k :| 0 <= k < |before| && before[k].op.OpRetry? && q.queueId in Keys(before[k].op.admissions)
          && before[k].now <= q.notBefore <= before[k].now + RETRY_BACKOFF_CAP_SECONDS;
        assert steps[k] == before[k];
      }
    }
  }

  /** Over whole runs: 300 s after the last call, a drain that is still up can be
      emptied of pending continuations by one claim. */
  lemma DrainEmptiesAfterTheCap(steps: seq<Step>, limit: int, now: real)
    requires ValidRun(DEFAULT_STATE, steps)
    requires now >= 0.0 && forall k :: 0 <= k < |steps| ==> steps[k].now + RETRY_BACKOFF_CAP_SECONDS <= now
    requires var s := Run(DEFAULT_STATE, steps); (s.phase == Available || s.phase == Draining) && limit >= |s.roots|
    ensures !AnyPendingContinuation(Apply(Run(DEFAULT_STATE, steps), OpClaim(limit, {}, false), now).roots)
  {
    var s := Run(DEFAULT_STATE, steps);
    DefaultStateInv();
    RunKeepsInv(DEFAULT_STATE, steps);
    forall r | r in s.roots ensures r.notBefore <= now {
      DelaysComeFromRetries(steps, r);
    }
    DrainCannotBeWedged(s, limit, now);
  }

  // --------------------------------------------------------- idempotent intake

  /** Accepting a source record twice adds one root: the second call finds the
      receipt, changes nothing and agrees, unless what it carries differs. */
  lemma IngressIsIdempotent(p: State, contact: string, context: string, source: Source, now: real,
                            contact2: string, context2: string, later: real)
    requires Inv(p) && EnqueueIngressRoot(p, contact, context, source, now).Some?
    ensures var t := EnqueueIngressRoot(p, contact, context, source, now).value;
            && HasReceipt(t.ingressReceipts, Ingress(source))
            && (EnqueueIngressRoot(t, contact2, context2, source, later)
                == if contact2 == contact && context2 == context then Some(t) else None)
  {
    var id := Ingress(source);
    var t := EnqueueIngressRoot(p, contact, context, source, now).value;
    var k := ReceiptIndex(p.ingressReceipts, id);
    if k == |p.ingressReceipts| {
      assert t.ingressReceipts[k].queueId == id;
      assert ReceiptIndex(t.ingressReceipts, id) == k;
    }
  }

  /** A root is appended exactly when the identity has neither a receipt nor a
      queued root; the queue is otherwise untouched. */
  lemma IngressAppendsExactlyOnce(p: State, contact: string, context: string, source: Source, now: real)
    requires EnqueueIngressRoot(p, contact, context, source, now).Some?
    ensures var t := EnqueueIngressRoot(p, contact, context, source, now).value;
            if HasReceipt(p.ingressReceipts, Ingress(source)) || Queued(p, Ingress(source))
            then t.roots == p.roots
            else t.roots == p.roots + [FreshRoot(p, Ingress(source), contact, context, None, now)]
  {
  }
}
