/** The durable hand-off of a work call from one manager to another
    (`core/messages.py`): many senders, one drainer and arbitrary other traffic
    interleave over the maintenance document and the manager queue, and any of
    them may die alone or with its process, or see a call raise before or after it
    took effect. */
module ManagerHandoff {
  import opened Common
  import opened MaintenanceModel
  import opened MaintenanceInvariant
  import opened IdentityFrames
  import opened ManagerQueue

  datatype Sender =
    | Acquired(lease: nat)     // holds an activity, nothing journalled
    | Prepared(lease: nat)     // the intent record is in the queue file
    | Transferred              // the coordinator said yes
    | Refused(lease: nat)      // the coordinator said no
    | Withdrawn(lease: nat)    // the intent record is out again
    | FallingBack              // will use the ordinary queue
    | Done                     // reported "Done"
    | Failed                   // reported an error, or died

  datatype Drainer =
    | Resting
    | Passing(todo: seq<Item>, refused: set<nat>, delivered: set<nat>)

  datatype Sys = Sys(
    c: State,
    queue: seq<Item>,
    senders: map<nat, Sender>,
    texts: map<nat, Message>,
    leases: map<nat, nat>,
    drainer: Drainer,
    continuations: multiset<nat>,
    ingresses: multiset<nat>)

  /** What a call into the coordinator looks like from outside. */
  datatype Call = Returned | RaisedBefore | RaisedAfter

  datatype Event =
    | Begin(h: nat, message: Message, parent: Option<ActivityToken>, ttl: real, now: real)
    | BeginPlain(h: nat, message: Message)
    | Journal(h: nat)
    | Hand(h: nat, call: Call, now: real)
    | FinishRemoving(h: nat)
    | FinishKeeping(h: nat)
    | Withdraw(h: nat)
    | LetGo(h: nat, call: Call, now: real)
    | FallBack(h: nat)
    | SenderDies(h: nat)
    | DrainerDies
    | Crash
    | PassBegin
    | PassResume(at: nat, call: Call, now: real)
    | PassIngress(at: nat, call: Call, now: real)
    | PassSkip(at: nat)
    | PassEnd
    | Environment(op: Op, now: real)

  // ---------------------------------------------------------------- transitions

  function HandOp(sys: Sys, h: nat): Op
    requires h in sys.texts && h in sys.leases
  {
    OpEnqueueContinuation(sys.texts[h].to, sys.texts[h].lineageContext, sys.leases[h], Some(Handoff(h)))
  }

  function IngressOp(sys: Sys, h: nat): Op
    requires h in sys.texts
  {
    OpEnqueueIngress(sys.texts[h].to, sys.texts[h].ingressContext, ManagerMessage(h))
  }

  function WithHand(sys: Sys, h: nat, now: real): Sys
    requires h in sys.texts && h in sys.leases
  {
    var op := HandOp(sys, h);
    sys.(
    c := Apply(sys.c, op, now),
    continuations := if Appends(sys.c, op, now) then sys.continuations + multiset{h} else sys.continuations)
  }

  function WithIngress(sys: Sys, h: nat, now: real): Sys
    requires h in sys.texts
  {
    var op := IngressOp(sys, h);
    sys.(
    c := Apply(sys.c, op, now),
    ingresses := if Appends(sys.c, op, now) then sys.ingresses + multiset{h} else sys.ingresses)
  }

  predicate HandAccepted(sys: Sys, h: nat, now: real)
    requires h in sys.texts && h in sys.leases
  {
    EnqueueContinuation(Prune(sys.c, now), sys.texts[h].to, sys.texts[h].lineageContext,
                        sys.leases[h], Some(Handoff(h)), now).1
  }

  predicate IngressAccepted(sys: Sys, h: nat, now: real)
    requires h in sys.texts
  {
    EnqueueIngressRoot(Prune(sys.c, now), sys.texts[h].to, sys.texts[h].ingressContext, ManagerMessage(h), now).Some?
  }

  function PlainItem(sys: Sys, h: nat): Item
    requires h in sys.texts
  {
    Item(h, sys.texts[h], None)
  }

  function PreparedItem(sys: Sys, h: nat, lease: nat): Item
    requires h in sys.texts
  {
    Item(h, sys.texts[h], Some(lease))
  }

  /** The head of its recipient's list, so a pass keeps per-recipient order. */
  predicate Next(todo: seq<Item>, at: nat) {
    && at < |todo|
    && forall i :: 0 <= i < at ==> todo[i].message.to != todo[at].message.to
  }

  function SkipRecipient(todo: seq<Item>, to: string): seq<Item> {
    if todo == [] then []
    else if todo[0].message.to == to then SkipRecipient(todo[1..], to)
    else [todo[0]] + SkipRecipient(todo[1..], to)
  }

  predicate In(sys: Sys, h: nat, sender: Sender) {
    h in sys.senders && sys.senders[h] == sender
  }

  ghost predicate Enabled(sys: Sys, e: Event) {
    match e
    case Begin(h, _, parent, ttl, _) =>
      h !in sys.senders && Genuine(sys.c, OpAcquire("manager_handoff", parent, ttl))
    case BeginPlain(h, _) => h !in sys.senders
    case Journal(h) => h in sys.senders && sys.senders[h].Acquired?
    case Hand(h, _, _) => h in sys.senders && sys.senders[h].Prepared?
    case FinishRemoving(h) => In(sys, h, Sender.Transferred)
    case FinishKeeping(h) => In(sys, h, Sender.Transferred)
    case Withdraw(h) => h in sys.senders && sys.senders[h].Refused?
    case LetGo(h, _, _) => h in sys.senders && sys.senders[h].Withdrawn?
    case FallBack(h) => In(sys, h, FallingBack)
    case SenderDies(h) => h in sys.senders
    case DrainerDies => true
    case Crash => true
    case PassBegin => sys.drainer == Resting
    case PassResume(at, _, _) =>
      && sys.drainer.Passing? && Next(sys.drainer.todo, at)
      && sys.drainer.todo[at].lease.Some? && sys.drainer.todo[at].id !in sys.drainer.refused
    case PassIngress(at, _, _) =>
      && sys.drainer.Passing? && Next(sys.drainer.todo, at)
      && (sys.drainer.todo[at].lease.None? || sys.drainer.todo[at].id in sys.drainer.refused)
    case PassSkip(at) => sys.drainer.Passing? && Next(sys.drainer.todo, at)
    case PassEnd => sys.drainer.Passing? && sys.drainer.todo == []
    case Environment(op, _) => Foreign(op) && Genuine(sys.c, op)
  }

  /** Only this protocol uses hand-off identities. */
  predicate Foreign(op: Op) {
    && (op.OpEnqueueContinuation? && op.given.Some? ==> !OurReceipt(op.given.value))
    && (op.OpEnqueueIngress? ==> !op.source.ManagerMessage?)
  }

  predicate OurReceipt(id: QueueId) {
    id.Handoff? || (id.Ingress? && id.source.ManagerMessage?)
  }

  /** When an event makes a coordinator call that gets through, at which time. */
  function CallAt(e: Event): Option<real> {
    match e
    case Begin(_, _, _, _, now) => Some(now)
    case Hand(_, call, now) => if call == RaisedBefore then None else Some(now)
    case LetGo(_, call, now) => if call == RaisedBefore then None else Some(now)
    case PassResume(_, call, now) => if call == RaisedBefore then None else Some(now)
    case PassIngress(_, call, now) => if call == RaisedBefore then None else Some(now)
    case Environment(_, now) => Some(now)
    case _ => None
  }

  /** The event's call, if any, spares the receipts of this one hand-off. */
  ghost predicate Spares(sys: Sys, e: Event, h: nat) {
    CallAt(e).Some? ==>
      Keeps(sys.c, CallAt(e).value, Handoff(h)) && Keeps(sys.c, CallAt(e).value, Ingress(ManagerMessage(h)))
  }

  function Dead(sender: Sender): Sender {
    if sender == Done then Done else Failed
  }

  ghost function Step(sys: Sys, e: Event): Sys
    requires Known(sys) && Enabled(sys, e)
  {
    match e
    case Begin(h, message, parent, ttl, now) =>
      var out := AcquireActivity(Prune(sys.c, now), "manager_handoff", parent, ttl, now);
      sys.(
      c := out.0,
      texts := sys.texts[h := message],
      leases := if out.1.Some? then sys.leases[h := out.1.value.leaseId] else sys.leases,
      senders := sys.senders[h := if out.1.Some? then Acquired(out.1.value.leaseId) else FallingBack])
    case BeginPlain(h, message) =>
      sys.(texts := sys.texts[h := message], senders := sys.senders[h := FallingBack])
    case Journal(h) =>
      var lease := sys.senders[h].lease;
      var r := Append(sys.queue, PreparedItem(sys, h, lease));
      if r.Appended? then sys.(queue := r.queue, senders := sys.senders[h := Prepared(lease)])
      else sys.(senders := sys.senders[h := Withdrawn(lease)])
    case Hand(h, call, now) =>
      var lease := sys.senders[h].lease;
      match call {
        case RaisedBefore => sys.(senders := sys.senders[h := Done])
        case RaisedAfter => WithHand(sys, h, now).(senders := sys.senders[h := Done])
        case Returned =>
          WithHand(sys, h, now).(
          senders := sys.senders[h := if HandAccepted(sys, h, now) then Sender.Transferred else Refused(lease)])
      }
    case FinishRemoving(h) => sys.(queue := Without(sys.queue, {h}), senders := sys.senders[h := Done])
    case FinishKeeping(h) => sys.(senders := sys.senders[h := Done])
    case Withdraw(h) =>
      sys.(queue := Without(sys.queue, {h}), senders := sys.senders[h := Withdrawn(sys.senders[h].lease)])
    case LetGo(h, call, now) =>
      sys.(
      c := if call == RaisedBefore then sys.c else Apply(sys.c, OpRelease(sys.senders[h].lease), now),
      senders := sys.senders[h := FallingBack])
    case FallBack(h) =>
      var r := Append(sys.queue, PlainItem(sys, h));
      if r.Appended? then sys.(queue := r.queue, senders := sys.senders[h := Done])
      else sys.(senders := sys.senders[h := Failed])
    case SenderDies(h) => sys.(senders := sys.senders[h := Dead(sys.senders[h])])
    case DrainerDies => sys.(drainer := Resting)
    case Crash => sys.(drainer := Resting, senders := map h | h in sys.senders :: Dead(sys.senders[h]))
    case PassBegin => sys.(drainer := Passing(sys.queue, {}, {}))
    case PassResume(at, call, now) =>
      var d := sys.drainer;
      var h := d.todo[at].id;
      match call {
        case RaisedBefore => sys.(drainer := d.(todo := SkipRecipient(d.todo, d.todo[at].message.to)))
        case RaisedAfter =>
          WithHand(sys, h, now).(drainer := d.(todo := SkipRecipient(d.todo, d.todo[at].message.to)))
        case Returned =>
          if HandAccepted(sys, h, now) then
            WithHand(sys, h, now).(drainer := d.(todo := Without(d.todo, {h}), delivered := d.delivered + {h}))
          else WithHand(sys, h, now).(drainer := d.(refused := d.refused + {h}))
      }
    case PassIngress(at, call, now) =>
      var d := sys.drainer;
      var h := d.todo[at].id;
      var skipped := d.(todo := SkipRecipient(d.todo, d.todo[at].message.to));
      match call {
        case RaisedBefore => sys.(drainer := skipped)
        case RaisedAfter => WithIngress(sys, h, now).(drainer := skipped)
        case Returned =>
          if IngressAccepted(sys, h, now) then
            WithIngress(sys, h, now).(drainer := d.(todo := Without(d.todo, {h}), delivered := d.delivered + {h}))
          else sys.(drainer := skipped)
      }
    case PassSkip(at) =>
      sys.(drainer := sys.drainer.(todo := SkipRecipient(sys.drainer.todo, sys.drainer.todo[at].message.to)))
    case PassEnd => sys.(queue := Without(sys.queue, sys.drainer.delivered), drainer := Resting)
    case Environment(op, now) => sys.(c := Apply(sys.c, op, now))
  }

  // ------------------------------------------------- invariant of every hand-off

  /** Every identity in play belongs to a hand-off that was begun. */
  ghost predicate Known(sys: Sys) {
    && sys.senders.Keys == sys.texts.Keys
    && (forall h :: h in sys.leases ==> h in sys.texts)
    && (forall h :: h in sys.senders && HoldsLease(sys.senders[h]) ==>
          h in sys.leases && sys.leases[h] == sys.senders[h].lease)
    && ItemsKnown(sys, sys.queue)
    && (sys.drainer.Passing? ==>
          ItemsKnown(sys, sys.drainer.todo) && forall h :: h in sys.drainer.refused ==> h in sys.senders)
  }

  predicate HoldsLease(sender: Sender) {
    sender.Acquired? || sender.Prepared? || sender.Refused? || sender.Withdrawn?
  }

  ghost predicate ItemsKnown(sys: Sys, items: seq<Item>) {
    forall i :: 0 <= i < |items| ==> ItemKnown(sys, items[i])
  }

  ghost predicate ItemKnown(sys: Sys, item: Item) {
    && item.id in sys.senders && item.id in sys.texts && item.message == sys.texts[item.id]
    && (item.lease.Some? ==> item.id in sys.leases && item.lease.value == sys.leases[item.id])
  }

  ghost predicate InQueue(items: seq<Item>, h: nat) {
    exists i :: 0 <= i < |items| && items[i].id == h
  }

  ghost predicate PlainInQueue(items: seq<Item>, h: nat) {
    exists i :: 0 <= i < |items| && items[i].id == h && items[i].lease.None?
  }

  ghost predicate PreparedInQueue(items: seq<Item>, h: nat) {
    exists i :: 0 <= i < |items| && items[i].id == h && items[i].lease.Some?
  }

  /** The document knows a hand-off by its texts, and none that was not begun. */
  ghost predicate TextsOf(sys: Sys, h: nat) {
    if h in sys.texts then
      && Says(sys.c, Handoff(h), sys.texts[h].to, sys.texts[h].lineageContext)
      && Says(sys.c, Ingress(ManagerMessage(h)), sys.texts[h].to, sys.texts[h].ingressContext)
    else Unheard(sys.c, Handoff(h)) && Unheard(sys.c, Ingress(ManagerMessage(h)))
  }

  /** A sender about to journal has no record in the queue. */
  ghost predicate Unqueued(sys: Sys, h: nat) {
    h in sys.senders && (sys.senders[h].Acquired? || sys.senders[h].Withdrawn? || sys.senders[h].FallingBack?) ==>
      !InQueue(sys.queue, h)
  }

  /** What holds whatever receipts are evicted. */
  ghost predicate Base(sys: Sys) {
    Inv(sys.c) && Known(sys) && forall h :: TextsOf(sys, h) && Unqueued(sys, h)
  }

  // -------------------------------------------------------- invariant of one hand-off

  /** The activity lease of the hand-off can never be handed over any more. */
  ghost predicate Spent(sys: Sys, h: nat) {
    h in sys.leases ==> sys.leases[h] < sys.c.nextId && sys.leases[h] !in sys.c.leases
  }

  /** Somebody may still offer the continuation to the coordinator. */
  ghost predicate Armed(sys: Sys, h: nat) {
    || (h in sys.senders && (sys.senders[h].Acquired? || sys.senders[h].Prepared?))
    || PreparedInQueue(sys.queue, h)
    || (sys.drainer.Passing? && PreparedInQueue(sys.drainer.todo, h))
  }

  /** No continuation exists and none can come into being. */
  ghost predicate Closed(sys: Sys, h: nat) {
    sys.continuations[h] == 0 && (Spent(sys, h) || !Armed(sys, h))
  }

  /** Roots this hand-off has put into the root queue so far. */
  function Created(sys: Sys, h: nat): nat {
    sys.continuations[h] + sys.ingresses[h]
  }

  /** The record of one hand-off, in every state of its sender. */
  ghost predicate SenderInv(sys: Sys, h: nat)
    requires h in sys.senders
  {
    match sys.senders[h]
    case Acquired(_) => Created(sys, h) == 0 && !Touched(sys, h)
    case Prepared(_) => InQueue(sys.queue, h) || Created(sys, h) == 1
    case Transferred => Created(sys, h) == 1
    case Refused(_) => Closed(sys, h)
    case Withdrawn(_) => Closed(sys, h)
    case FallingBack => Closed(sys, h)
    case Done => InQueue(sys.queue, h) || Created(sys, h) == 1
    case Failed => true
  }

  /** Does any record or pass still mention the hand-off? */
  ghost predicate Touched(sys: Sys, h: nat) {
    || InQueue(sys.queue, h)
    || (sys.drainer.Passing? && InQueue(sys.drainer.todo, h))
    || sys.ingresses[h] > 0
  }

  /** The counts agree with the receipts of the maintenance document. */
  ghost predicate ReceiptsTell(sys: Sys, h: nat) {
    && (sys.continuations[h] == 0 <==> !HasReceipt(sys.c.continuationReceipts, Handoff(h)))
    && (sys.ingresses[h] == 0 <==> !HasReceipt(sys.c.ingressReceipts, Ingress(ManagerMessage(h))))
    && (HasRoot(sys.c, Handoff(h)) ==> sys.continuations[h] > 0)
    && (HasRoot(sys.c, Ingress(ManagerMessage(h))) ==> sys.ingresses[h] > 0)
  }

  ghost predicate PassInv(sys: Sys, h: nat) {
    sys.drainer.Passing? ==>
      && (PlainInQueue(sys.drainer.todo, h) ==> Closed(sys, h))
      && (h in sys.drainer.refused ==> Closed(sys, h))
      && (h in sys.drainer.delivered ==> Created(sys, h) == 1)
  }

  ghost predicate HandoffInv(sys: Sys, h: nat) {
    && Created(sys, h) <= 1
    && ReceiptsTell(sys, h)
    && (sys.ingresses[h] > 0 ==> Closed(sys, h))
    && (PlainInQueue(sys.queue, h) ==> Closed(sys, h))
    && PassInv(sys, h)
    && (h in sys.senders ==> SenderInv(sys, h))
    && (h !in sys.senders ==> Created(sys, h) == 0 && h !in sys.leases)
    && (h in sys.leases ==> sys.leases[h] < sys.c.nextId)
  }
}
