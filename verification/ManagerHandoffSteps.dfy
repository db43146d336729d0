/** Every event keeps what holds of all hand-offs, and keeps what holds of one
    hand-off as long as its own receipts are spared. */
module ManagerHandoffSteps {
  import opened Common
  import opened MaintenanceModel
  import opened MaintenanceInvariant
  import opened IdentityFrames
  import opened ManagerQueue
  import opened ManagerHandoff
  import opened ManagerHandoffProof

  // --------------------------------------------------------------- every hand-off

  lemma AppendKnown(sys: Sys, item: Item)
    requires ItemsKnown(sys, sys.queue) && ItemKnown(sys, item)
    ensures ItemsKnown(sys, sys.queue + [item])
  {
  }

  lemma WithoutKnown(sys: Sys, items: seq<Item>, ids: set<nat>)
    requires ItemsKnown(sys, items)
    ensures ItemsKnown(sys, Without(items, ids))
  {
    WithoutKeepsTheRest(items, ids);
    SubsetKnown(sys, items, Without(items, ids));
  }

  lemma BeginKeepsBase(sys: Sys, e: Event)
    requires Base(sys) && e.Begin? && Enabled(sys, e)
    ensures Base(Step(sys, e))
  {
    var op := OpAcquire("manager_handoff", e.parent, e.ttl);
    var mid := sys.(c := Apply(sys.c, op, e.now));
    CallKeepsBase(sys, op, e.now, mid);
    BegunKeepsBase(mid, e.h, e.message, BegunLease(sys, e));
  }

  /** The lease `Begin` acquires, if the fence lets it have one. */
  function BegunLease(sys: Sys, e: Event): Option<nat>
    requires e.Begin?
  {
    var out := AcquireActivity(Prune(sys.c, e.now), "manager_handoff", e.parent, e.ttl, e.now).1;
    if out.Some? then Some(out.value.leaseId) else None
  }

  lemma JournalKeepsBase(sys: Sys, h: nat)
    requires Base(sys) && Enabled(sys, Journal(h))
    ensures Base(Step(sys, Journal(h)))
  {
    var item := PreparedItem(sys, h, sys.senders[h].lease);
    assert Unqueued(sys, h);
    AppendKnown(sys, item);
    forall x ensures InQueue(sys.queue + [item], x) <==> InQueue(sys.queue, x) || x == h {
      AppendMembership(sys.queue, item, x);
    }
    SenderKeepsBase(sys, Step(sys, Journal(h)), h);
  }

  lemma FallBackKeepsBase(sys: Sys, h: nat)
    requires Base(sys) && Enabled(sys, FallBack(h))
    ensures Base(Step(sys, FallBack(h)))
  {
    var item := PlainItem(sys, h);
    AppendKnown(sys, item);
    forall x ensures InQueue(sys.queue + [item], x) <==> InQueue(sys.queue, x) || x == h {
      AppendMembership(sys.queue, item, x);
    }
    SenderKeepsBase(sys, Step(sys, FallBack(h)), h);
  }

  /** The sender goes on to a state that will not journal again. */
  lemma OnwardKeepsBase(sys: Sys, h: nat, next: Sender)
    requires Base(sys) && h in sys.senders
    requires HoldsLease(next) ==> HoldsLease(sys.senders[h]) && next.lease == sys.senders[h].lease
    requires next.Acquired? || next.Withdrawn? || next.FallingBack? ==> !InQueue(sys.queue, h)
    ensures Base(sys.(senders := sys.senders[h := next]))
  {
    SenderKeepsBase(sys, sys.(senders := sys.senders[h := next]), h);
  }

  lemma RemovalKeepsBase(sys: Sys, h: nat, next: Sender)
    requires Base(sys) && h in sys.senders
    requires HoldsLease(next) ==> HoldsLease(sys.senders[h]) && next.lease == sys.senders[h].lease
    ensures Base(sys.(senders := sys.senders[h := next], queue := Without(sys.queue, {h})))
  {
    forall x ensures InQueue(Without(sys.queue, {h}), x) <==> x != h && InQueue(sys.queue, x) {
      WithoutMembership(sys.queue, {h}, x);
    }
    WithoutKnown(sys, sys.queue, {h});
    SenderKeepsBase(sys, sys.(senders := sys.senders[h := next], queue := Without(sys.queue, {h})), h);
  }

  lemma HandStepKeepsBase(sys: Sys, h: nat, call: Call, now: real)
    requires Base(sys) && Enabled(sys, Hand(h, call, now))
    ensures Base(Step(sys, Hand(h, call, now)))
  {
    var mid := if call == RaisedBefore then sys else WithHand(sys, h, now);
    if call != RaisedBefore {
      HandKeepsBase(sys, h, now);
    }
    OnwardKeepsBase(mid, h, Step(sys, Hand(h, call, now)).senders[h]);
  }

  lemma LetGoKeepsBase(sys: Sys, h: nat, call: Call, now: real)
    requires Base(sys) && Enabled(sys, LetGo(h, call, now))
    ensures Base(Step(sys, LetGo(h, call, now)))
  {
    var op := OpRelease(sys.senders[h].lease);
    var mid := if call == RaisedBefore then sys else sys.(c := Apply(sys.c, op, now));
    if call != RaisedBefore {
      CallKeepsBase(sys, op, now, mid);
    }
    assert Unqueued(sys, h);
    OnwardKeepsBase(mid, h, FallingBack);
  }

  lemma CrashKeepsBase(sys: Sys)
    requires Base(sys)
    ensures Base(Step(sys, Crash))
  {
    var t := Step(sys, Crash);
    forall h ensures Unqueued(t, h) {
      assert Unqueued(sys, h);
    }
    MoveKeepsBase(sys, t);
  }

  lemma SenderStepKeepsBase(sys: Sys, e: Event)
    requires Base(sys) && Enabled(sys, e)
    requires e.FinishRemoving? || e.FinishKeeping? || e.Withdraw? || e.SenderDies?
    ensures Base(Step(sys, e))
  {
    match e
    case FinishRemoving(h) => RemovalKeepsBase(sys, h, Done);
    case FinishKeeping(h) => OnwardKeepsBase(sys, h, Done);
    case Withdraw(h) => RemovalKeepsBase(sys, h, Withdrawn(sys.senders[h].lease));
    case SenderDies(h) => OnwardKeepsBase(sys, h, Dead(sys.senders[h]));
  }

  lemma SkipKeepsBase(sys: Sys, at: nat)
    requires Base(sys) && sys.drainer.Passing? && at < |sys.drainer.todo|
    ensures Base(Skipped(sys, at))
  {
    var d := sys.drainer;
    SkippedAreThere(d.todo, d.todo[at].message.to);
    SubsetKnown(sys, d.todo, SkipRecipient(d.todo, d.todo[at].message.to));
    PassKeepsBase(sys, Skipped(sys, at).drainer);
  }

  function Skipped(sys: Sys, at: nat): Sys
    requires sys.drainer.Passing? && at < |sys.drainer.todo|
  {
    sys.(drainer := sys.drainer.(todo := SkipRecipient(sys.drainer.todo, sys.drainer.todo[at].message.to)))
  }

  lemma ResumeKeepsBase(sys: Sys, at: nat, call: Call, now: real)
    requires Base(sys) && Enabled(sys, PassResume(at, call, now))
    ensures Base(Step(sys, PassResume(at, call, now)))
  {
    var d := sys.drainer;
    var h := d.todo[at].id;
    assert ItemKnown(sys, d.todo[at]);
    HandKeepsBase(sys, h, now);
    var mid := WithHand(sys, h, now);
    match call {
      case RaisedBefore => SkipKeepsBase(sys, at);
      case RaisedAfter => SkipKeepsBase(mid, at);
      case Returned =>
        WithoutKnown(mid, d.todo, {h});
        PassKeepsBase(mid, Step(sys, PassResume(at, call, now)).drainer);
    }
  }

  lemma IngressStepKeepsBase(sys: Sys, at: nat, call: Call, now: real)
    requires Base(sys) && Enabled(sys, PassIngress(at, call, now))
    ensures Base(Step(sys, PassIngress(at, call, now)))
  {
    var d := sys.drainer;
    var h := d.todo[at].id;
    assert ItemKnown(sys, d.todo[at]);
    IngressKeepsBase(sys, h, now);
    var mid := WithIngress(sys, h, now);
    match call {
      case RaisedBefore => SkipKeepsBase(sys, at);
      case RaisedAfter => SkipKeepsBase(mid, at);
      case Returned =>
        WithoutKnown(mid, d.todo, {h});
        PassKeepsBase(mid, Step(sys, PassIngress(at, call, now)).drainer);
    }
  }

  lemma PassEndKeepsBase(sys: Sys)
    requires Base(sys) && Enabled(sys, PassEnd)
    ensures Base(Step(sys, PassEnd))
  {
    var t := Step(sys, PassEnd);
    WithoutKnown(sys, sys.queue, sys.drainer.delivered);
    forall h ensures Unqueued(t, h) {
      assert Unqueued(sys, h);
      WithoutMembership(sys.queue, sys.drainer.delivered, h);
    }
    MoveKeepsBase(sys, t);
  }

  lemma PassStepKeepsBase(sys: Sys, e: Event)
    requires Base(sys) && Enabled(sys, e)
    requires e.DrainerDies? || e.PassBegin? || e.PassResume? || e.PassIngress? || e.PassSkip? || e.PassEnd?
    ensures Base(Step(sys, e))
  {
    match e
    case DrainerDies => PassKeepsBase(sys, Resting);
    case PassBegin => PassKeepsBase(sys, Passing(sys.queue, {}, {}));
    case PassResume(at, call, now) => ResumeKeepsBase(sys, at, call, now);
    case PassIngress(at, call, now) => IngressStepKeepsBase(sys, at, call, now);
    case PassSkip(at) => SkipKeepsBase(sys, at);
    case PassEnd => PassEndKeepsBase(sys);
  }

  lemma ForeignKeepsBase(sys: Sys, op: Op, now: real)
    requires Base(sys) && Foreign(op) && Genuine(sys.c, op)
    ensures Base(sys.(c := Apply(sys.c, op, now)))
  {
    CallKeepsBase(sys, op, now, sys.(c := Apply(sys.c, op, now)));
  }

  /** No event needs any receipt to be retained for what holds of all hand-offs. */
  lemma StepKeepsBase(sys: Sys, e: Event)
    requires Base(sys) && Enabled(sys, e)
    ensures Base(Step(sys, e))
  {
    match e
    case Begin(_, _, _, _, _) => BeginKeepsBase(sys, e);
    case BeginPlain(h, message) => BegunKeepsBase(sys, h, message, None);
    case Journal(h) => JournalKeepsBase(sys, h);
    case Hand(h, call, now) => HandStepKeepsBase(sys, h, call, now);
    case LetGo(h, call, now) => LetGoKeepsBase(sys, h, call, now);
    case FallBack(h) => FallBackKeepsBase(sys, h);
    case Crash => CrashKeepsBase(sys);
    case Environment(op, now) => ForeignKeepsBase(sys, op, now);
    case FinishRemoving(_) => SenderStepKeepsBase(sys, e);
    case FinishKeeping(_) => SenderStepKeepsBase(sys, e);
    case Withdraw(_) => SenderStepKeepsBase(sys, e);
    case SenderDies(_) => SenderStepKeepsBase(sys, e);
    case _ => PassStepKeepsBase(sys, e);
  }

  // ----------------------------------------------------------------- one hand-off

  /** Nothing h can notice has changed: what still mentions it did so before. */
  ghost predicate SameView(sys: Sys, t: Sys, h: nat) {
    && t.c == sys.c
    && t.continuations[h] == sys.continuations[h] && t.ingresses[h] == sys.ingresses[h]
    && (h in t.senders <==> h in sys.senders) && (h in sys.senders ==> t.senders[h] == sys.senders[h])
    && (h in t.leases <==> h in sys.leases) && (h in sys.leases ==> t.leases[h] == sys.leases[h])
    && InQueue(t.queue, h) == InQueue(sys.queue, h)
    && (PlainInQueue(t.queue, h) ==> PlainInQueue(sys.queue, h))
    && (Armed(t, h) ==> Armed(sys, h))
    && (Touched(t, h) ==> Touched(sys, h))
  }

  lemma ViewKeepsHandoff(sys: Sys, t: Sys, h: nat)
    requires HandoffInv(sys, h) && SameView(sys, t, h)
    requires t.drainer.Passing? && PlainInQueue(t.drainer.todo, h) ==> Closed(sys, h)
    requires t.drainer.Passing? && h in t.drainer.refused ==> Closed(sys, h)
    requires t.drainer.Passing? && h in t.drainer.delivered ==> Created(sys, h) == 1
    ensures HandoffInv(t, h)
  {
    assert Spent(sys, h) == Spent(t, h);
    assert Closed(sys, h) ==> Closed(t, h);
    assert ReceiptsTell(t, h);
  }

  /** Another hand-off's sender and record move. */
  lemma OthersMove(sys: Sys, t: Sys, x: nat, h: nat)
    requires HandoffInv(sys, h) && x != h
    requires t == sys.(senders := t.senders, queue := t.queue)
    requires (h in t.senders <==> h in sys.senders) && (h in sys.senders ==> t.senders[h] == sys.senders[h])
    requires InQueue(t.queue, h) == InQueue(sys.queue, h) && PlainInQueue(t.queue, h) == PlainInQueue(sys.queue, h)
    requires PreparedInQueue(t.queue, h) == PreparedInQueue(sys.queue, h)
    ensures HandoffInv(t, h)
  {
    ViewKeepsHandoff(sys, t, h);
  }

  /** The hand-off's own sender moves, with its record. */
  lemma OwnMove(sys: Sys, t: Sys, h: nat)
    requires HandoffInv(sys, h) && h in sys.senders && h in t.senders
    requires t == sys.(senders := t.senders, queue := t.queue)
    requires Armed(t, h) ==> Armed(sys, h)
    requires PlainInQueue(t.queue, h) ==> Closed(sys, h)
    requires Closed(sys, h) ==> !Armed(sys, h) || Spent(sys, h)
    requires SenderInv(t, h)
    ensures HandoffInv(t, h)
  {
    assert Spent(sys, h) == Spent(t, h);
    assert Closed(sys, h) ==> Closed(t, h);
    assert ReceiptsTell(t, h);
  }

  lemma BeginKeepsHandoff(sys: Sys, e: Event, h: nat)
    requires Base(sys) && e.Begin? && Enabled(sys, e) && HandoffInv(sys, h) && Spares(sys, e, h)
    ensures HandoffInv(Step(sys, e), h)
  {
    var op := OpAcquire("manager_handoff", e.parent, e.ttl);
    var mid := sys.(c := Apply(sys.c, op, e.now));
    ForeignCallKeepsHandoff(sys, op, e.now, h);
    CallKeepsBase(sys, op, e.now, mid);
    BegunKeepsHandoff(mid, e.h, e.message, BegunLease(sys, e), h);
  }

  lemma BegunKeepsHandoff(sys: Sys, x: nat, message: Message, lease: Option<nat>, h: nat)
    requires Base(sys) && x !in sys.senders && HandoffInv(sys, h)
    requires lease.Some? ==> lease.value < sys.c.nextId
    ensures HandoffInv(Begun(sys, x, message, lease), h)
  {
    var t := Begun(sys, x, message, lease);
    FreshIsUnmentioned(sys, x);
    if x == h {
      assert !Touched(t, h) && ReceiptsTell(t, h);
    } else {
      ViewKeepsHandoff(sys, t, h);
    }
  }

  lemma JournalKeepsHandoff(sys: Sys, x: nat, h: nat)
    requires Base(sys) && Enabled(sys, Journal(x)) && HandoffInv(sys, h)
    ensures HandoffInv(Step(sys, Journal(x)), h)
  {
    var t := Step(sys, Journal(x));
    AppendMembership(sys.queue, PreparedItem(sys, x, sys.senders[x].lease), h);
    if x != h {
      OthersMove(sys, t, x, h);
    } else {
      assert !Touched(sys, h);
      OwnMove(sys, t, h);
    }
  }

  lemma FallBackKeepsHandoff(sys: Sys, x: nat, h: nat)
    requires Base(sys) && Enabled(sys, FallBack(x)) && HandoffInv(sys, h)
    ensures HandoffInv(Step(sys, FallBack(x)), h)
  {
    var t := Step(sys, FallBack(x));
    AppendMembership(sys.queue, PlainItem(sys, x), h);
    if x != h {
      OthersMove(sys, t, x, h);
    } else {
      OwnMove(sys, t, h);
    }
  }

  /** The sender of x goes on, its record staying. */
  lemma OnwardKeepsHandoff(sys: Sys, x: nat, next: Sender, h: nat)
    requires HandoffInv(sys, h) && x in sys.senders && !next.Acquired?
    requires next.Prepared? ==> sys.senders[x].Prepared?
    requires x == h ==> SenderInv(sys.(senders := sys.senders[x := next]), h)
    ensures HandoffInv(sys.(senders := sys.senders[x := next]), h)
  {
    if x != h {
      OthersMove(sys, sys.(senders := sys.senders[x := next]), x, h);
    } else {
      OwnMove(sys, sys.(senders := sys.senders[x := next]), h);
    }
  }

  lemma RemovalKeepsHandoff(sys: Sys, x: nat, next: Sender, h: nat)
    requires HandoffInv(sys, h) && x in sys.senders
    requires next == Done || next.Withdrawn?
    requires x == h && next == Done ==> Created(sys, h) == 1
    requires x == h && next.Withdrawn? ==> Closed(sys, h)
    ensures HandoffInv(sys.(senders := sys.senders[x := next], queue := Without(sys.queue, {x})), h)
  {
    var t := sys.(senders := sys.senders[x := next], queue := Without(sys.queue, {x}));
    WithoutMembership(sys.queue, {x}, h);
    if x != h {
      OthersMove(sys, t, x, h);
    } else {
      assert Closed(sys, h) ==> Closed(t, h);
      OwnMove(sys, t, h);
    }
  }

  lemma WithHandKeepsHandoff(sys: Sys, x: nat, now: real, h: nat)
    requires Base(sys) && MayHand(sys, x) && HandoffInv(sys, h) && KeepsFor(sys.c, now, h)
    ensures HandoffInv(WithHand(sys, x, now), h)
    ensures x == h ==> if HandAccepted(sys, x, now) then Created(WithHand(sys, x, now), h) == 1
                       else Closed(WithHand(sys, x, now), h)
  {
    if x == h {
      HandOnH(sys, h, now);
    } else {
      HandKeepsOther(sys, x, now, h);
    }
  }

  lemma HandStepKeepsHandoff(sys: Sys, x: nat, call: Call, now: real, h: nat)
    requires Base(sys) && Enabled(sys, Hand(x, call, now)) && HandoffInv(sys, h) && Spares(sys, Hand(x, call, now), h)
    ensures HandoffInv(Step(sys, Hand(x, call, now)), h)
  {
    var mid := if call == RaisedBefore then sys else WithHand(sys, x, now);
    if call != RaisedBefore {
      WithHandKeepsHandoff(sys, x, now, h);
    }
    OnwardKeepsHandoff(mid, x, Step(sys, Hand(x, call, now)).senders[x], h);
  }

  lemma LetGoKeepsHandoff(sys: Sys, x: nat, call: Call, now: real, h: nat)
    requires Base(sys) && Enabled(sys, LetGo(x, call, now)) && HandoffInv(sys, h) && Spares(sys, LetGo(x, call, now), h)
    ensures HandoffInv(Step(sys, LetGo(x, call, now)), h)
  {
    var op := OpRelease(sys.senders[x].lease);
    var mid := if call == RaisedBefore then sys else sys.(c := Apply(sys.c, op, now));
    if call != RaisedBefore {
      ForeignCallKeepsHandoff(sys, op, now, h);
    }
    OnwardKeepsHandoff(mid, x, FallingBack, h);
  }

  lemma CrashKeepsHandoff(sys: Sys, h: nat)
    requires Base(sys) && HandoffInv(sys, h)
    ensures HandoffInv(Step(sys, Crash), h)
  {
    var mid := sys.(drainer := Resting);
    ViewKeepsHandoff(sys, mid, h);
    var t := Step(sys, Crash);
    if h in sys.senders {
      OwnMove(mid, t, h);
    } else {
      ViewKeepsHandoff(mid, t, h);
    }
  }

  lemma SenderStepKeepsHandoff(sys: Sys, e: Event, h: nat)
    requires Base(sys) && Enabled(sys, e) && HandoffInv(sys, h)
    requires e.FinishRemoving? || e.FinishKeeping? || e.Withdraw? || e.SenderDies?
    ensures HandoffInv(Step(sys, e), h)
  {
    match e
    case FinishRemoving(x) => RemovalKeepsHandoff(sys, x, Done, h);
    case FinishKeeping(x) => OnwardKeepsHandoff(sys, x, Done, h);
    case Withdraw(x) => RemovalKeepsHandoff(sys, x, Withdrawn(sys.senders[x].lease), h);
    case SenderDies(x) => OnwardKeepsHandoff(sys, x, Dead(sys.senders[x]), h);
  }

  // --------------------------------------------------------------------- the pass

  /** Dropping records from the pass, with a verdict on some hand-off or none. */
  lemma PassMovesOn(sys: Sys, fewer: seq<Item>, refused: set<nat>, delivered: set<nat>, h: nat)
    requires HandoffInv(sys, h) && sys.drainer.Passing?
    requires forall x :: x in fewer ==> x in sys.drainer.todo
    requires h in refused ==> h in sys.drainer.refused || Closed(sys, h)
    requires h in delivered ==> h in sys.drainer.delivered || Created(sys, h) == 1
    ensures HandoffInv(sys.(drainer := Passing(fewer, refused, delivered)), h)
  {
    SubsetMembership(sys.drainer.todo, fewer, h);
    ViewKeepsHandoff(sys, sys.(drainer := Passing(fewer, refused, delivered)), h);
  }

  lemma SkipKeepsHandoff(sys: Sys, at: nat, h: nat)
    requires HandoffInv(sys, h) && sys.drainer.Passing? && at < |sys.drainer.todo|
    ensures HandoffInv(Skipped(sys, at), h)
  {
    var d := sys.drainer;
    SkippedAreThere(d.todo, d.todo[at].message.to);
    PassMovesOn(sys, SkipRecipient(d.todo, d.todo[at].message.to), d.refused, d.delivered, h);
  }

  /** The record of x leaves the pass as delivered. */
  lemma DeliveredKeepsHandoff(sys: Sys, x: nat, h: nat)
    requires HandoffInv(sys, h) && sys.drainer.Passing? && (x == h ==> Created(sys, h) == 1)
    ensures HandoffInv(Delivered(sys, x), h)
  {
    var d := sys.drainer;
    WithoutKeepsTheRest(d.todo, {x});
    PassMovesOn(sys, Without(d.todo, {x}), d.refused, d.delivered + {x}, h);
  }

  function Delivered(sys: Sys, x: nat): Sys
    requires sys.drainer.Passing?
  {
    sys.(drainer := sys.drainer.(todo := Without(sys.drainer.todo, {x}), delivered := sys.drainer.delivered + {x}))
  }

  /** What the head of a recipient's list allows the pass to do. */
  lemma HeadMayGo(sys: Sys, at: nat)
    requires Base(sys) && sys.drainer.Passing? && at < |sys.drainer.todo|
    ensures var x := sys.drainer.todo[at].id;
            && x in sys.senders && x in sys.texts && Touched(sys, x)
            && (HandoffInv(sys, x) && sys.drainer.todo[at].lease.Some? ==> MayHand(sys, x))
            && (HandoffInv(sys, x) && (sys.drainer.todo[at].lease.None? || x in sys.drainer.refused) ==> Closed(sys, x))
  {
    assert ItemKnown(sys, sys.drainer.todo[at]);
  }

  lemma ResumeKeepsHandoff(sys: Sys, at: nat, call: Call, now: real, h: nat)
    requires Base(sys) && Enabled(sys, PassResume(at, call, now)) && HandoffInv(sys, h)
    requires Spares(sys, PassResume(at, call, now), h)
    ensures HandoffInv(Step(sys, PassResume(at, call, now)), h)
  {
    var d := sys.drainer;
    var x := d.todo[at].id;
    HeadMayGo(sys, at);
    if call == RaisedBefore {
      SkipKeepsHandoff(sys, at, h);
    } else {
      ResumedKeepsHandoff(sys, at, now, h);
      var mid := WithHand(sys, x, now);
      if call == RaisedAfter {
        SkipKeepsHandoff(mid, at, h);
      } else if HandAccepted(sys, x, now) {
        DeliveredKeepsHandoff(mid, x, h);
      } else {
        PassMovesOn(mid, d.todo, d.refused + {x}, d.delivered, h);
      }
    }
  }

  lemma ResumedKeepsHandoff(sys: Sys, at: nat, now: real, h: nat)
    requires Base(sys) && Enabled(sys, PassResume(at, Returned, now)) && HandoffInv(sys, h) && KeepsFor(sys.c, now, h)
    ensures var x := sys.drainer.todo[at].id;
            && x in sys.texts && x in sys.leases && HandoffInv(WithHand(sys, x, now), h)
            && (x == h ==> if HandAccepted(sys, x, now) then Created(WithHand(sys, x, now), h) == 1
                           else Closed(WithHand(sys, x, now), h))
  {
    var x := sys.drainer.todo[at].id;
    HeadMayGo(sys, at);
    assert ItemKnown(sys, sys.drainer.todo[at]);
    if x == h {
      HandOnH(sys, h, now);
    } else {
      HandKeepsOther(sys, x, now, h);
    }
  }

  lemma IngressedKeepsHandoff(sys: Sys, at: nat, now: real, h: nat)
    requires Base(sys) && Enabled(sys, PassIngress(at, Returned, now)) && HandoffInv(sys, h) && KeepsFor(sys.c, now, h)
    ensures var x := sys.drainer.todo[at].id;
            && x in sys.texts && HandoffInv(WithIngress(sys, x, now), h)
            && (x == h ==> Created(WithIngress(sys, x, now), h) == 1)
  {
    var x := sys.drainer.todo[at].id;
    HeadMayGo(sys, at);
    if x == h {
      IngressOnH(sys, h, now);
    } else {
      IngressKeepsOther(sys, x, now, h);
    }
  }

  lemma IngressStepKeepsHandoff(sys: Sys, at: nat, call: Call, now: real, h: nat)
    requires Base(sys) && Enabled(sys, PassIngress(at, call, now)) && HandoffInv(sys, h)
    requires Spares(sys, PassIngress(at, call, now), h)
    ensures HandoffInv(Step(sys, PassIngress(at, call, now)), h)
  {
    var d := sys.drainer;
    var x := d.todo[at].id;
    HeadMayGo(sys, at);
    if call == RaisedBefore {
      SkipKeepsHandoff(sys, at, h);
    } else {
      IngressedKeepsHandoff(sys, at, now, h);
      IngressKeepsBase(sys, x, now);
      if call == RaisedAfter {
        SkipKeepsHandoff(WithIngress(sys, x, now), at, h);
      } else {
        DeliveredKeepsHandoff(WithIngress(sys, x, now), x, h);
      }
    }
  }

  lemma PassEndKeepsHandoff(sys: Sys, h: nat)
    requires Base(sys) && HandoffInv(sys, h) && Enabled(sys, PassEnd)
    ensures HandoffInv(Step(sys, PassEnd), h)
  {
    var t := Step(sys, PassEnd);
    WithoutMembership(sys.queue, sys.drainer.delivered, h);
    assert Spent(sys, h) == Spent(t, h);
    assert Armed(t, h) ==> Armed(sys, h);
    assert Touched(t, h) ==> Touched(sys, h);
    assert ReceiptsTell(t, h);
  }

  lemma PassStepKeepsHandoff(sys: Sys, e: Event, h: nat)
    requires Base(sys) && Enabled(sys, e) && HandoffInv(sys, h) && Spares(sys, e, h)
    requires e.DrainerDies? || e.PassBegin? || e.PassResume? || e.PassIngress? || e.PassSkip? || e.PassEnd?
    ensures HandoffInv(Step(sys, e), h)
  {
    match e
    case DrainerDies => ViewKeepsHandoff(sys, sys.(drainer := Resting), h);
    case PassBegin => ViewKeepsHandoff(sys, sys.(drainer := Passing(sys.queue, {}, {})), h);
    case PassResume(at, call, now) => ResumeKeepsHandoff(sys, at, call, now, h);
    case PassIngress(at, call, now) => IngressStepKeepsHandoff(sys, at, call, now, h);
    case PassSkip(at) => SkipKeepsHandoff(sys, at, h);
    case PassEnd => PassEndKeepsHandoff(sys, h);
  }

  lemma EntryKeepsHandoff(sys: Sys, e: Event, h: nat)
    requires Base(sys) && Enabled(sys, e) && HandoffInv(sys, h) && Spares(sys, e, h)
    requires e.Begin? || e.BeginPlain? || e.Journal? || e.FallBack?
    ensures HandoffInv(Step(sys, e), h)
  {
    match e
    case Begin(_, _, _, _, _) => BeginKeepsHandoff(sys, e, h);
    case BeginPlain(x, message) => BegunKeepsHandoff(sys, x, message, None, h);
    case Journal(x) => JournalKeepsHandoff(sys, x, h);
    case FallBack(x) => FallBackKeepsHandoff(sys, x, h);
  }

  lemma CallStepKeepsHandoff(sys: Sys, e: Event, h: nat)
    requires Base(sys) && Enabled(sys, e) && HandoffInv(sys, h) && Spares(sys, e, h)
    requires e.Hand? || e.LetGo? || e.Environment?
    ensures HandoffInv(Step(sys, e), h)
  {
    match e
    case Hand(x, call, now) => HandStepKeepsHandoff(sys, x, call, now, h);
    case LetGo(x, call, now) => LetGoKeepsHandoff(sys, x, call, now, h);
    case Environment(op, now) => ForeignCallKeepsHandoff(sys, op, now, h);
  }

  /** Every event keeps a hand-off's invariant while its own receipts are spared. */
  lemma StepKeepsHandoff(sys: Sys, e: Event, h: nat)
    requires Base(sys) && Enabled(sys, e) && HandoffInv(sys, h) && Spares(sys, e, h)
    ensures HandoffInv(Step(sys, e), h)
  {
    if e.Begin? || e.BeginPlain? || e.Journal? || e.FallBack? {
      EntryKeepsHandoff(sys, e, h);
    } else if e.Hand? || e.LetGo? || e.Environment? {
      CallStepKeepsHandoff(sys, e, h);
    } else if e.FinishRemoving? || e.FinishKeeping? || e.Withdraw? || e.SenderDies? {
      SenderStepKeepsHandoff(sys, e, h);
    } else if e.Crash? {
      CrashKeepsHandoff(sys, h);
    } else {
      PassStepKeepsHandoff(sys, e, h);
    }
  }
}
