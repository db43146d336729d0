/** The maintenance document of `core/maintenance.py` as a value, and each public
    operation of the coordinator as a function from document to document.

    The functions named after a public method take the already pruned document;
    `Apply` is the whole transaction.  A fresh UUID is the next value of `nextId`.  A digest is represented by the
    value it digests, which is what an injective hash gives.  Text that only
    travels (activity ids, process ids, notices, public events) is left out. */
module MaintenanceModel {
  import opened Common

  const LEASE_TTL_SECONDS := 90.0
  const ROOT_CLAIM_TTL_SECONDS := 120.0
  const MIN_LEASE_TTL_SECONDS := 5.0
  const MAX_CONTINUATION_RECEIPTS: nat := 2_000
  const CONTINUATION_RECEIPT_TTL_SECONDS := 604_800.0
  const MAX_INGRESS_RECEIPTS: nat := 5_000
  const INGRESS_RECEIPT_TTL_SECONDS := 604_800.0
  const RETRY_BACKOFF_CAP_SECONDS := 300.0
  const RETRY_BACKOFF_MAX_DOUBLINGS: nat := 6

  datatype Phase = Available | Draining | Updating | Validating | RollingBack

  /** The identity text handed to `enqueue_ingress_root`, by who builds it. */
  datatype Source =
    | ManagerMessage(item: nat)
    | InterfaceEvent(key: string)

  /** `Uuid` is drawn by the coordinator, `Handoff` by the sender of a manager
      message, `Ingress` is the digest of a source identity. */
  datatype QueueId =
    | Uuid(n: nat)
    | Handoff(item: nat)
    | Ingress(source: Source)

  datatype MaintenanceId = NoMaintenance | Named(name: string) | Generated(n: nat)

  datatype LastOutcome = NoOutcome | DeadlineExpired | Cancelled | RolledBack | Updated

  datatype Lease = Lease(
    kind: string,
    lineage: nat,
    parent: Option<nat>,
    admittedEpoch: nat,
    expiresAt: real)

  datatype ActivityToken = ActivityToken(leaseId: nat, lineage: nat, admittedEpoch: nat)

  datatype Claim = Unclaimed | Claimed(token: nat, until: real, lease: nat)

  datatype Transfer = Transfer(admittedEpoch: nat, lineage: nat, lease: nat)

  /** One entry of `root_queue`; `transfer` is present exactly on continuations. */
  datatype Root = Root(
    queueId: QueueId,
    contact: string,
    context: string,
    enqueuedAt: real,
    enqueuedEpoch: nat,
    claim: Claim,
    attempts: nat,
    notBefore: real,
    transfer: Option<Transfer>)

  /** Accepted identity: the fingerprint is the pair (contact, context). */
  datatype Receipt = Receipt(queueId: QueueId, contact: string, context: string, acceptedAt: real)

  datatype Admission = Admission(
    queueId: QueueId,
    token: nat,
    contact: string,
    context: string,
    activity: ActivityToken)

  datatype State = State(
    epoch: nat,
    phase: Phase,
    maintenanceId: MaintenanceId,
    requestedAt: real,
    deadlineAt: real,
    safeToStop: bool,
    lastOutcome: LastOutcome,
    leases: map<nat, Lease>,
    roots: seq<Root>,
    continuationReceipts: seq<Receipt>,
    ingressReceipts: seq<Receipt>,
    nextId: nat)

  const DEFAULT_STATE :=
    State(0, Available, NoMaintenance, 0.0, 0.0, false, NoOutcome, map[], [], [], [], 0)

  // ------------------------------------------------------------------ backoff

  function Power2(n: nat): nat {
    if n == 0 then 1 else 2 * Power2(n - 1)
  }

  function Doublings(attempts: int): nat {
    var extra := if attempts - 1 < 0 then 0 else attempts - 1;
    if extra < RETRY_BACKOFF_MAX_DOUBLINGS then extra else RETRY_BACKOFF_MAX_DOUBLINGS
  }

  function RetryBackoff(delay: real, attempts: int): real {
    Min(Max(0.0, delay) * (Power2(Doublings(attempts)) as real), RETRY_BACKOFF_CAP_SECONDS)
  }

  // ------------------------------------------------------------------ pruning

  function CancelExpiredDrain(s: State, now: real): State {
    if s.phase == Draining && s.deadlineAt > 0.0 && now >= s.deadlineAt then
      s.(phase := Available, safeToStop := false, lastOutcome := DeadlineExpired)
    else s
  }

  function LiveLeases(leases: map<nat, Lease>, now: real): map<nat, Lease> {
    map id | id in leases && leases[id].expiresAt > now :: leases[id]
  }

  function Unexpired(receipts: seq<Receipt>, ttl: real, now: real): seq<Receipt> {
    if receipts == [] then []
    else if now - receipts[0].acceptedAt >= ttl then Unexpired(receipts[1..], ttl, now)
    else [receipts[0]] + Unexpired(receipts[1..], ttl, now)
  }

  /** Position of the earliest accepted receipt; the first one on ties, as a
      stable sort would give. */
  function Oldest(receipts: seq<Receipt>): (k: nat)
    requires receipts != []
    ensures k < |receipts|
    ensures forall j :: 0 <= j < |receipts| ==> receipts[k].acceptedAt <= receipts[j].acceptedAt
    ensures forall j :: 0 <= j < k ==> receipts[k].acceptedAt < receipts[j].acceptedAt
  {
    if |receipts| == 1 then 0
    else
      var rest := receipts[1..];
      var k := Oldest(rest);
      assert forall j :: 1 <= j < |receipts| ==> receipts[j] == rest[j - 1];
      if rest[k].acceptedAt < receipts[0].acceptedAt then k + 1 else 0
  }

  function DropAt<T>(xs: seq<T>, k: nat): (r: seq<T>)
    requires k < |xs|
    ensures |r| == |xs| - 1
  {
    xs[..k] + xs[k + 1..]
  }

  function Newest(receipts: seq<Receipt>, limit: nat): seq<Receipt>
    decreases |receipts|
  {
    if |receipts| <= limit then receipts
    else Newest(DropAt(receipts, Oldest(receipts)), limit)
  }

  function KeptReceipts(receipts: seq<Receipt>, ttl: real, limit: nat, now: real): seq<Receipt> {
    Newest(Unexpired(receipts, ttl, now), limit)
  }

  function RefreshRoot(r: Root, leases: map<nat, Lease>, now: real): Root {
    if r.claim.Claimed? && !(r.claim.lease in leases && r.claim.until > now)
    then r.(claim := Unclaimed)
    else r
  }

  function RefreshRoots(roots: seq<Root>, leases: map<nat, Lease>, now: real): (out: seq<Root>)
    ensures |out| == |roots|
    ensures forall i :: 0 <= i < |roots| ==> out[i] == RefreshRoot(roots[i], leases, now)
  {
    seq(|roots|, i requires 0 <= i < |roots| => RefreshRoot(roots[i], leases, now))
  }

  /** What every transaction does before its own change. */
  function Prune(s: State, now: real): State {
    var c := CancelExpiredDrain(s, now);
    var live := LiveLeases(c.leases, now);
    c.(
    leases := live,
    continuationReceipts := KeptReceipts(c.continuationReceipts,
                                         CONTINUATION_RECEIPT_TTL_SECONDS, MAX_CONTINUATION_RECEIPTS, now),
    ingressReceipts := KeptReceipts(c.ingressReceipts,
                                    INGRESS_RECEIPT_TTL_SECONDS, MAX_INGRESS_RECEIPTS, now),
    roots := RefreshRoots(c.roots, live, now),
    safeToStop := c.phase == Draining && c.safeToStop && live == map[])
  }

  // --------------------------------------------------------------- queue views

  predicate HasRoot(s: State, id: QueueId) {
    exists i :: 0 <= i < |s.roots| && s.roots[i].queueId == id
  }

  function RootIndex(roots: seq<Root>, id: QueueId): (k: nat)
    ensures k <= |roots|
    ensures k < |roots| ==> roots[k].queueId == id
    ensures forall j :: 0 <= j < k ==> roots[j].queueId != id
  {
    if roots == [] then 0
    else if roots[0].queueId == id then 0
    else 1 + RootIndex(roots[1..], id)
  }

  function ReceiptIndex(receipts: seq<Receipt>, id: QueueId): (k: nat)
    ensures k <= |receipts|
    ensures k < |receipts| ==> receipts[k].queueId == id
    ensures forall j :: 0 <= j < k ==> receipts[j].queueId != id
  {
    if receipts == [] then 0
    else if receipts[0].queueId == id then 0
    else 1 + ReceiptIndex(receipts[1..], id)
  }

  predicate HasReceipt(receipts: seq<Receipt>, id: QueueId) {
    exists i :: 0 <= i < |receipts| && receipts[i].queueId == id
  }

  predicate PendingContinuation(r: Root) {
    r.claim == Unclaimed && r.transfer.Some?
  }

  predicate AnyPendingContinuation(roots: seq<Root>) {
    exists i :: 0 <= i < |roots| && PendingContinuation(roots[i])
  }

  // ------------------------------------------------------------ lifecycle edges

  /** None stands for the exception raised when another drain is active. */
  function RequestDrain(s: State, deadline: Option<real>, id: MaintenanceId, now: real): Option<State> {
    if s.phase != Available then
      if id != NoMaintenance && id != s.maintenanceId then None else Some(s)
    else
      Some(s.(
           epoch := s.epoch + 1,
           phase := Draining,
           maintenanceId := if id != NoMaintenance then id else Generated(s.nextId),
           requestedAt := now,
           deadlineAt := if deadline.Some? then now + Max(0.0, deadline.value) else 0.0,
           safeToStop := false,
           lastOutcome := NoOutcome,
           nextId := s.nextId + 1))
  }

  function CancelDrain(s: State, id: MaintenanceId): (State, bool) {
    if s.phase != Draining || (id != NoMaintenance && id != s.maintenanceId) then (s, false)
    else (s.(phase := Available, safeToStop := false, lastOutcome := Cancelled), true)
  }

  predicate EdgeAllowed(from: Phase, to: Phase) {
    match from
    case Draining => to in {Updating, Available, RollingBack}
    case Updating => to in {Validating, RollingBack}
    case Validating => to in {Available, RollingBack}
    case RollingBack => to == Available
    case Available => false
  }

  function OutcomeOnReturn(from: Phase): LastOutcome {
    match from
    case RollingBack => RolledBack
    case Draining => Cancelled
    case _ => Updated
  }

  /** None stands for the exceptions; `Draining` is not a target the source accepts. */
  function Transition(s: State, to: Phase, id: MaintenanceId): Option<State> {
    if to == Draining then None
    else if id != NoMaintenance && id != s.maintenanceId then None
    else if to == s.phase then Some(s)
    else if !EdgeAllowed(s.phase, to) then None
    else if to == Updating && !s.safeToStop then None
    else Some(s.(
              phase := to,
              safeToStop := false,
              lastOutcome := if to == Available then OutcomeOnReturn(s.phase) else s.lastOutcome))
  }

  // ------------------------------------------------------------------- claiming

  function ClaimedLease(s: State, r: Root, now: real): Lease {
    match r.transfer
    case Some(t) => Lease("manager_root", t.lineage, Some(t.lease), t.admittedEpoch, now + LEASE_TTL_SECONDS)
    case None => Lease("manager_root", s.nextId + 1, None, s.epoch, now + LEASE_TTL_SECONDS)
  }

  /** Claim the root at position i: token and lease are two fresh identities and
      the lease a continuation was transferred from is dropped. */
  function ClaimRoot(s: State, i: nat, now: real): State
    requires i < |s.roots|
  {
    var r := s.roots[i];
    var added := s.leases[s.nextId + 1 := ClaimedLease(s, r, now)];
    s.(
    leases := if r.transfer.Some? then added - {r.transfer.value.lease} else added,
    roots := s.roots[i := r.(claim := Claimed(s.nextId, now + ROOT_CLAIM_TTL_SECONDS, s.nextId + 1))],
    safeToStop := false,
    nextId := s.nextId + 2)
  }

  function AdmissionOf(s: State, i: nat, now: real): Admission
    requires i < |s.roots|
  {
    var r := s.roots[i];
    var lease := ClaimedLease(s, r, now);
    Admission(r.queueId, s.nextId, r.contact, r.context,
              ActivityToken(s.nextId + 1, lease.lineage, lease.admittedEpoch))
  }

  predicate Claimable(phase: Phase, epoch: nat, r: Root, excluded: set<string>, now: real) {
    && r.claim == Unclaimed
    && r.contact !in excluded
    && r.notBefore <= now
    && (phase == Draining ==> r.transfer.Some? && r.transfer.value.admittedEpoch < epoch)
  }

  function ClaimFrom(s: State, i: nat, budget: nat, excluded: set<string>, unique: bool, now: real):
    (out: (State, seq<Admission>))
    requires i <= |s.roots|
    decreases |s.roots| - i
  {
    if i == |s.roots| || budget == 0 then (s, [])
    else if Claimable(s.phase, s.epoch, s.roots[i], excluded, now) then
      var rest := ClaimFrom(ClaimRoot(s, i, now), i + 1, budget - 1,
                            if unique then excluded + {s.roots[i].contact} else excluded, unique, now);
      (rest.0, [AdmissionOf(s, i, now)] + rest.1)
    else ClaimFrom(s, i + 1, budget, excluded, unique, now)
  }

  function ClaimLimit(limit: int): nat {
    if limit < 1 then 1 else limit
  }

  function ClaimPendingRoots(s: State, limit: int, excluded: set<string>, unique: bool, now: real):
    (State, seq<Admission>)
  {
    if s.phase != Available && s.phase != Draining then (s, [])
    else ClaimFrom(s, 0, ClaimLimit(limit), excluded, unique, now)
  }

  // ------------------------------------------------------------------ enqueuing

  function FreshRoot(s: State, id: QueueId, contact: string, context: string,
                     transfer: Option<Transfer>, now: real): Root
  {
    Root(id, contact, context, now, s.epoch, Unclaimed, 0, 0.0, transfer)
  }

  function EnqueueRoot(s: State, contact: string, context: string, admit: bool, now: real):
    (State, Option<Admission>)
  {
    var root := FreshRoot(s, Uuid(s.nextId), contact, context, None, now);
    var queued := s.(roots := s.roots + [root], nextId := s.nextId + 1);
    if s.phase == Available && admit then
      (ClaimRoot(queued, |s.roots|, now), Some(AdmissionOf(queued, |s.roots|, now)))
    else (queued, None)
  }

  /** None stands for `IngressRootConflictError`. */
  function EnqueueIngressRoot(s: State, contact: string, context: string, source: Source, now: real):
    Option<State>
  {
    var id := Ingress(source);
    var k := ReceiptIndex(s.ingressReceipts, id);
    var j := RootIndex(s.roots, id);
    if k < |s.ingressReceipts| then
      if s.ingressReceipts[k].contact == contact && s.ingressReceipts[k].context == context
      then Some(s) else None
    else if j < |s.roots| then
      if s.roots[j].contact == contact && s.roots[j].context == context
      then Some(s.(ingressReceipts := s.ingressReceipts + [Receipt(id, contact, context, s.roots[j].enqueuedAt)]))
      else None
    else
      Some(s.(
           roots := s.roots + [FreshRoot(s, id, contact, context, None, now)],
           ingressReceipts := s.ingressReceipts + [Receipt(id, contact, context, now)],
           safeToStop := false))
  }

  function EnqueueContinuation(p: State, contact: string, context: string, lease: nat,
                               given: Option<QueueId>, now: real): (State, bool)
  {
    if given.Some? then ContinueAs(p, given.value, contact, context, lease, now)
    else ContinueAs(p.(nextId := p.nextId + 1), Uuid(p.nextId), contact, context, lease, now)
  }

  function ContinueAs(s: State, id: QueueId, contact: string, context: string, lease: nat, now: real): (State, bool) {
    var k := ReceiptIndex(s.continuationReceipts, id);
    var j := RootIndex(s.roots, id);
    if k < |s.continuationReceipts| then
      (s, s.continuationReceipts[k].contact == contact && s.continuationReceipts[k].context == context)
    else if j < |s.roots| then
      if s.roots[j].contact == contact && s.roots[j].context == context then
        (s.(continuationReceipts :=
         s.continuationReceipts + [Receipt(id, contact, context, s.roots[j].enqueuedAt)]), true)
      else (s, false)
    else if lease !in s.leases then (s, false)
    else
      var held := s.leases[lease];
      var transfer := Transfer(held.admittedEpoch, held.lineage, lease);
      (s.(
       roots := s.roots + [FreshRoot(s, id, contact, context, Some(transfer), now)],
       leases := s.leases - {lease},
       continuationReceipts := s.continuationReceipts + [Receipt(id, contact, context, now)],
       safeToStop := false), true)
  }

  // --------------------------------------------------------------------- leases

  function LeaseUntil(ttl: real, now: real): real {
    now + Max(MIN_LEASE_TTL_SECONDS, ttl)
  }

  function BeatRoot(r: Root, lease: nat, now: real): Root {
    if r.claim.Claimed? && r.claim.lease == lease
    then r.(claim := r.claim.(until := now + ROOT_CLAIM_TTL_SECONDS))
    else r
  }

  function BeatRoots(roots: seq<Root>, lease: nat, now: real): (out: seq<Root>)
    ensures |out| == |roots|
    ensures forall i :: 0 <= i < |roots| ==> out[i] == BeatRoot(roots[i], lease, now)
  {
    seq(|roots|, i requires 0 <= i < |roots| => BeatRoot(roots[i], lease, now))
  }

  function Heartbeat(s: State, lease: nat, ttl: real, now: real): (State, bool) {
    if lease !in s.leases then (s, false)
    else
      (s.(
       leases := s.leases[lease := s.leases[lease].(expiresAt := LeaseUntil(ttl, now))],
       roots := BeatRoots(s.roots, lease, now)), true)
  }

  function AddLease(s: State, kind: string, lineage: Option<nat>, parent: Option<nat>,
                    admittedEpoch: nat, ttl: real, now: real): (State, ActivityToken)
  {
    var line := if lineage.Some? then lineage.value else s.nextId;
    (s.(
     leases := s.leases[s.nextId := Lease(kind, line, parent, admittedEpoch, LeaseUntil(ttl, now))],
     safeToStop := false,
     nextId := s.nextId + 1), ActivityToken(s.nextId, line, admittedEpoch))
  }

  function AcquireActivity(s: State, kind: string, parent: Option<ActivityToken>, ttl: real, now: real):
    (State, Option<ActivityToken>)
  {
    if s.phase == Available then
      var out := AddLease(s, kind,
                          if parent.Some? then Some(parent.value.lineage) else None,
                          if parent.Some? then Some(parent.value.leaseId) else None,
                          s.epoch, ttl, now);
      (out.0, Some(out.1))
    else if parent.None? || parent.value.leaseId !in s.leases
            || parent.value.admittedEpoch >= s.epoch then (s, None)
    else
      var out := AddLease(s, kind, Some(parent.value.lineage), Some(parent.value.leaseId),
                          parent.value.admittedEpoch, ttl, now);
      (out.0, Some(out.1))
  }

  function AdoptPrefenceActivity(s: State, kind: string, startedAt: real, ttl: real, now: real):
    (State, Option<ActivityToken>)
  {
    if s.phase == Available then
      var out := AddLease(s, kind, None, None, s.epoch, ttl, now);
      (out.0, Some(out.1))
    else if s.requestedAt == 0.0 || (startedAt != 0.0 && startedAt > s.requestedAt) then (s, None)
    else
      var before := if s.epoch == 0 then 0 else s.epoch - 1;
      var out := AddLease(s, kind, None, None, before, ttl, now);
      (out.0, Some(out.1))
  }

  function Release(s: State, lease: nat): (State, bool) {
    (s.(leases := s.leases - {lease}), lease in s.leases)
  }

  // ----------------------------------------------------------------- settlement

  /** Later admissions of the same queue id replace earlier ones, as in a dict. */
  function Keys(admissions: seq<Admission>): map<QueueId, (nat, nat)> {
    if admissions == [] then map[]
    else
      var last := admissions[|admissions| - 1];
      Keys(admissions[..|admissions| - 1])[last.queueId := (last.token, last.activity.leaseId)]
  }

  predicate Holds(r: Root, keys: map<QueueId, (nat, nat)>) {
    && r.queueId in keys
    && r.claim.Claimed?
    && r.claim.token == keys[r.queueId].0
    && r.claim.lease == keys[r.queueId].1
  }

  function HeldLeases(roots: seq<Root>, keys: map<QueueId, (nat, nat)>): set<nat> {
    set r | r in roots && Holds(r, keys) :: r.claim.lease
  }

  function Unheld(roots: seq<Root>, keys: map<QueueId, (nat, nat)>): seq<Root> {
    if roots == [] then []
    else if Holds(roots[0], keys) then Unheld(roots[1..], keys)
    else [roots[0]] + Unheld(roots[1..], keys)
  }

  function CompleteRoots(s: State, admissions: seq<Admission>): State {
    var keys := Keys(admissions);
    s.(leases := s.leases - HeldLeases(s.roots, keys), roots := Unheld(s.roots, keys))
  }

  function RetriedRoot(r: Root, delay: real, now: real): Root {
    r.(
    claim := Unclaimed,
    attempts := r.attempts + 1,
    notBefore := now + RetryBackoff(delay, r.attempts + 1))
  }

  function DeferredRoot(r: Root): Root {
    r.(claim := Unclaimed)
  }

  function RetryHeld(roots: seq<Root>, keys: map<QueueId, (nat, nat)>, delay: real, now: real):
    (out: seq<Root>)
    ensures |out| == |roots|
    ensures forall i :: 0 <= i < |roots| ==>
      out[i] == if Holds(roots[i], keys) then RetriedRoot(roots[i], delay, now) else roots[i]
  {
    seq(|roots|, i requires 0 <= i < |roots| =>
      if Holds(roots[i], keys) then RetriedRoot(roots[i], delay, now) else roots[i])
  }

  function DeferHeld(roots: seq<Root>, keys: map<QueueId, (nat, nat)>): (out: seq<Root>)
    ensures |out| == |roots|
    ensures forall i :: 0 <= i < |roots| ==>
      out[i] == if Holds(roots[i], keys) then DeferredRoot(roots[i]) else roots[i]
  {
    seq(|roots|, i requires 0 <= i < |roots| =>
      if Holds(roots[i], keys) then DeferredRoot(roots[i]) else roots[i])
  }

  function RetryRoots(s: State, admissions: seq<Admission>, delay: real, now: real): State {
    var keys := Keys(admissions);
    s.(leases := s.leases - HeldLeases(s.roots, keys), roots := RetryHeld(s.roots, keys, delay, now))
  }

  function DeferRoots(s: State, admissions: seq<Admission>): State {
    var keys := Keys(admissions);
    s.(leases := s.leases - HeldLeases(s.roots, keys), roots := DeferHeld(s.roots, keys))
  }

  // ----------------------------------------------------------------- quiescence

  function AcknowledgeQuiescent(s: State, epoch: int, inputsSecured: bool): (State, bool) {
    if s.phase != Draining || s.epoch != epoch || s.leases != map[]
       || AnyPendingContinuation(s.roots) || !inputsSecured
    then (s.(safeToStop := false), false)
    else (s.(safeToStop := true), true)
  }

  // ----------------------------------------------------------------- operations

  datatype Op =
    | OpRequestDrain(deadline: Option<real>, drainId: MaintenanceId)
    | OpCancelDrain(cancelId: MaintenanceId)
    | OpTransition(to: Phase, transitionId: MaintenanceId)
    | OpEnqueueRoot(contact: string, context: string, admit: bool)
    | OpEnqueueIngress(contact: string, context: string, source: Source)
    | OpClaim(limit: int, excluded: set<string>, unique: bool)
    | OpEnqueueContinuation(contact: string, context: string, lease: nat, given: Option<QueueId>)
    | OpHeartbeat(lease: nat, ttl: real)
    | OpAcquire(kind: string, parent: Option<ActivityToken>, ttl: real)
    | OpAdopt(kind: string, startedAt: real, ttl: real)
    | OpRelease(lease: nat)
    | OpComplete(admissions: seq<Admission>)
    | OpRetry(admissions: seq<Admission>, delay: real)
    | OpDefer(admissions: seq<Admission>)
    | OpAcknowledge(ackEpoch: int, inputsSecured: bool)
    | OpRead

  /** The change one call makes to the pruned document; None when it raises. */
  function Mutate(s: State, op: Op, now: real): Option<State> {
    match op
    case OpRequestDrain(deadline, id) => RequestDrain(s, deadline, id, now)
    case OpCancelDrain(id) => Some(CancelDrain(s, id).0)
    case OpTransition(to, id) => Transition(s, to, id)
    case OpEnqueueRoot(contact, context, admit) => Some(EnqueueRoot(s, contact, context, admit, now).0)
    case OpEnqueueIngress(contact, context, source) => EnqueueIngressRoot(s, contact, context, source, now)
    case OpClaim(limit, excluded, unique) => Some(ClaimPendingRoots(s, limit, excluded, unique, now).0)
    case OpEnqueueContinuation(contact, context, lease, given) =>
      Some(EnqueueContinuation(s, contact, context, lease, given, now).0)
    case OpHeartbeat(lease, ttl) => Some(Heartbeat(s, lease, ttl, now).0)
    case OpAcquire(kind, parent, ttl) => Some(AcquireActivity(s, kind, parent, ttl, now).0)
    case OpAdopt(kind, startedAt, ttl) => Some(AdoptPrefenceActivity(s, kind, startedAt, ttl, now).0)
    case OpRelease(lease) => Some(Release(s, lease).0)
    case OpComplete(admissions) => Some(CompleteRoots(s, admissions))
    case OpRetry(admissions, delay) => Some(RetryRoots(s, admissions, delay, now))
    case OpDefer(admissions) => Some(DeferRoots(s, admissions))
    case OpAcknowledge(epoch, secured) => Some(AcknowledgeQuiescent(s, epoch, secured).0)
    case OpRead => Some(s)
  }

  /** One transaction: prune, change, write.  A call that raises writes nothing,
      not even what it pruned. */
  function Apply(s: State, op: Op, now: real): State {
    var r := Mutate(Prune(s, now), op, now);
    if r.Some? then r.value else s
  }

  predicate LifecycleOp(op: Op) {
    op.OpRequestDrain? || op.OpCancelDrain? || op.OpTransition? || op.OpAcknowledge? || op.OpRead?
  }

  predicate QueueOp(op: Op) {
    op.OpEnqueueRoot? || op.OpEnqueueIngress? || op.OpEnqueueContinuation? || op.OpClaim?
  }

  predicate LeaseOp(op: Op) {
    op.OpHeartbeat? || op.OpAcquire? || op.OpAdopt? || op.OpRelease?
  }

  predicate SettleOp(op: Op) {
    op.OpComplete? || op.OpRetry? || op.OpDefer?
  }

  /** Did the call append a root? */
  predicate Appends(s: State, op: Op, now: real) {
    |Apply(s, op, now).roots| > |s.roots|
  }

  /** What callers owe: a token matches the lease it was issued for while that
      lease lives, and a caller-chosen queue id is not one the coordinator has
      still to draw. */
  ghost predicate Genuine(s: State, op: Op) {
    match op
    case OpAcquire(_, parent, _) =>
      parent.Some? && parent.value.leaseId in s.leases ==>
        && s.leases[parent.value.leaseId].lineage == parent.value.lineage
        && s.leases[parent.value.leaseId].admittedEpoch == parent.value.admittedEpoch
    case OpEnqueueContinuation(_, _, _, given) =>
      given.Some? && given.value.Uuid? ==> given.value.n < s.nextId
    case _ => true
  }
}
