/** The inbox feeding the maintenance document (`get_unread_events` with a durable
    hand-off): records are read, queued, drained, handled event by event, committed
    or put back, while other traffic and crashes interleave. */
module InboxHandoff {
  import opened Common
  import opened MaintenanceModel
  import opened MaintenanceInvariant
  import opened IdentityFrames
  import opened InboxModel

  /** The manager context an event turns into; fixed by the event's identity. */
  datatype Text = Text(contact: string, context: string)

  /** What the process is given: which events a line carries, and their texts. */
  datatype Feed = Feed(events: Record -> seq<string>, text: string -> Text)

  /** `handled` counts the events of the record in hand that are dealt with;
      `marks` is the durable already-processed window; the last two are history. */
  datatype Sys = Sys(
    c: State,
    box: Inbox,
    handled: nat,
    marks: set<string>,
    accepted: multiset<string>,
    skipped: set<string>)

  datatype Event =
    | Arrive(bytes: Bytes)
    | Scan(lines: seq<Record>, to: nat)
    | Enqueue
    | DrainBatch(limit: nat)
    | SkipEvent(mark: bool)
    | Hand(now: real, marked: bool)
    | HandFails(effect: bool, now: real)
    | BookkeepingFails
    | FrameFails
    | CommitHead
    | Forget(lost: set<string>)
    | Crash
    | Environment(op: Op, now: real)

  function Key(feed: Feed, sys: Sys): string
    requires sys.box.hand != [] && sys.handled < |feed.events(sys.box.hand[0])|
  {
    feed.events(sys.box.hand[0])[sys.handled]
  }

  ghost predicate HasEvent(feed: Feed, sys: Sys) {
    sys.box.hand != [] && sys.handled < |feed.events(sys.box.hand[0])|
  }

  function HandOp(feed: Feed, key: string): Op {
    OpEnqueueIngress(feed.text(key).contact, feed.text(key).context, InterfaceEvent(key))
  }

  function WithHand(feed: Feed, sys: Sys, key: string, now: real): Sys {
    var op := HandOp(feed, key);
    sys.(
    c := Apply(sys.c, op, now),
    accepted := if Appends(sys.c, op, now) then sys.accepted + multiset{key} else sys.accepted)
  }

  predicate OurId(id: QueueId) {
    id.Ingress? && id.source.InterfaceEvent?
  }

  /** When an event makes a coordinator call that gets through, at which time. */
  function CallAt(e: Event): Option<real> {
    match e
    case Hand(now, _) => Some(now)
    case HandFails(effect, now) => if effect then Some(now) else None
    case Environment(_, now) => Some(now)
    case _ => None
  }

  /** The event's call, if any, spares the receipt of this one interface event. */
  ghost predicate Spares(sys: Sys, e: Event, key: string) {
    CallAt(e).Some? ==> Keeps(sys.c, CallAt(e).value, Ingress(InterfaceEvent(key)))
  }

  predicate Foreign(op: Op) {
    && (op.OpEnqueueIngress? ==> !op.source.InterfaceEvent?)
    && (op.OpEnqueueContinuation? && op.given.Some? ==> !OurId(op.given.value))
  }

  ghost predicate Enabled(feed: Feed, sys: Sys, e: Event) {
    match e
    case Arrive(_) => true
    case Scan(lines, to) => Chain(sys.box.file, ScanFrom(sys.box), lines, to)
    case Enqueue => true
    case DrainBatch(_) => sys.box.hand == [] && sys.handled == 0
    case SkipEvent(_) => HasEvent(feed, sys)
    case Hand(_, _) => HasEvent(feed, sys) && Key(feed, sys) !in sys.marks
    case HandFails(_, _) => HasEvent(feed, sys) && Key(feed, sys) !in sys.marks
    case BookkeepingFails => HasEvent(feed, sys)
    case FrameFails => sys.box.hand != []
    case CommitHead => sys.box.hand != [] && !HasEvent(feed, sys)
    case Forget(_) => true
    case Crash => true
    case Environment(op, _) => Foreign(op) && Genuine(sys.c, op)
  }

  function PutBack(sys: Sys): Sys {
    sys.(box := RetryBatch(sys.box), handled := 0)
  }

  ghost function Step(feed: Feed, sys: Sys, e: Event): Sys
    requires Enabled(feed, sys, e)
  {
    match e
    case Arrive(bytes) => sys.(box := Append(sys.box, bytes))
    case Scan(lines, to) => sys.(box := Take(sys.box, lines, to))
    case Enqueue => sys.(box := Queue(sys.box))
    case DrainBatch(limit) => sys.(box := Drain(sys.box, limit))
    case SkipEvent(mark) =>
      var key := Key(feed, sys);
      sys.(
      handled := sys.handled + 1,
      skipped := if key in sys.marks then sys.skipped else sys.skipped + {key},
      marks := if mark then sys.marks + {key} else sys.marks)
    case Hand(now, marked) =>
      var key := Key(feed, sys);
      var out := WithHand(feed, sys, key, now);
      if Mutate(Prune(sys.c, now), HandOp(feed, key), now).None? then PutBack(sys)
      else if marked then out.(handled := sys.handled + 1, marks := sys.marks + {key})
      else PutBack(out)
    case HandFails(effect, now) =>
      if effect then PutBack(WithHand(feed, sys, Key(feed, sys), now)) else PutBack(sys)
    case BookkeepingFails => PutBack(sys)
    case FrameFails =>
      sys.(
      skipped := sys.skipped + (set k | k in feed.events(sys.box.hand[0])),
      handled := |feed.events(sys.box.hand[0])|)
    case CommitHead => sys.(box := Commit(sys.box), handled := 0)
    case Forget(lost) => sys.(marks := sys.marks - lost)
    case Crash => sys.(box := Restart(sys.box), handled := 0)
    case Environment(op, now) => sys.(c := Apply(sys.c, op, now))
  }

  // ------------------------------------------------------------------ invariant

  /** The event became a root, or an explicit branch of the source dropped it. */
  predicate Settled(sys: Sys, key: string) {
    sys.accepted[key] > 0 || key in sys.skipped
  }

  ghost predicate RecordSettled(feed: Feed, sys: Sys, r: Record) {
    forall k :: k in feed.events(r) ==> Settled(sys, k)
  }

  /** Everything before the committed offset is settled. */
  ghost predicate CommittedSettled(feed: Feed, sys: Sys) {
    sys.box.committed <= |sys.box.file| &&
    exists done :: CommittedLines(sys.box, done) && forall r :: r in done ==> RecordSettled(feed, sys, r)
  }

  ghost predicate CommittedLines(b: Inbox, done: seq<Record>) {
    Chain(b.file, 0, done, b.committed)
  }

  ghost predicate HandSettled(feed: Feed, sys: Sys) {
    if sys.box.hand == [] then sys.handled == 0
    else
      && sys.handled <= |feed.events(sys.box.hand[0])|
      && forall i :: 0 <= i < sys.handled ==> Settled(sys, feed.events(sys.box.hand[0])[i])
  }

  /** What holds of an event whatever receipts are evicted. */
  ghost predicate KeyInv(feed: Feed, sys: Sys, key: string) {
    var id := Ingress(InterfaceEvent(key));
    && Says(sys.c, id, feed.text(key).contact, feed.text(key).context)
    && (HasReceipt(sys.c.ingressReceipts, id) || HasRoot(sys.c, id) ==> sys.accepted[key] > 0)
    && (key in sys.marks ==> Settled(sys, key))
  }

  /** What holds of an event while its own receipt is retained. */
  ghost predicate OnceInv(sys: Sys, key: string) {
    && sys.accepted[key] <= 1
    && (sys.accepted[key] == 1 ==> HasReceipt(sys.c.ingressReceipts, Ingress(InterfaceEvent(key))))
  }

  ghost predicate SysInv(feed: Feed, sys: Sys) {
    && Inv(sys.c)
    && InboxInv(sys.box)
    && HandSettled(feed, sys)
    && CommittedSettled(feed, sys)
    && forall key :: KeyInv(feed, sys, key)
  }

  // ------------------------------------------------------------------- frames

  /** Settling only ever adds. */
  ghost predicate MoreSettled(sys: Sys, t: Sys) {
    forall key :: Settled(sys, key) ==> Settled(t, key)
  }

  lemma CommittedStays(feed: Feed, sys: Sys, t: Sys)
    requires CommittedSettled(feed, sys) && MoreSettled(sys, t)
    requires t.box.committed == sys.box.committed && sys.box.file <= t.box.file
    ensures CommittedSettled(feed, t)
  {
    var done :| CommittedLines(sys.box, done) && forall r :: r in done ==> RecordSettled(feed, sys, r);
    var more := t.box.file[|sys.box.file|..];
    assert t.box.file == sys.box.file + more;
    ChainSurvivesAppend(sys.box.file, more, 0, done, sys.box.committed);
    assert CommittedLines(t.box, done);
    forall r | r in done ensures RecordSettled(feed, t, r) {
      assert RecordSettled(feed, sys, r);
    }
  }

  lemma CommittedGrows(feed: Feed, sys: Sys)
    requires SysInv(feed, sys) && sys.box.hand != [] && !HasEvent(feed, sys)
    ensures CommittedSettled(feed, sys.(box := Commit(sys.box), handled := 0))
  {
    var b := sys.box;
    var t := sys.(box := Commit(b), handled := 0);
    var done :| CommittedLines(b, done) && forall r :: r in done ==> RecordSettled(feed, sys, r);
    CommitKeepsInv(b);
    var head := b.hand[0];
    assert InFlight(b)[0] == head;
    assert Chain(b.file, b.committed, [head], head.end);
    ChainConcat(b.file, 0, done, b.committed, [head], head.end);
    assert CommittedLines(t.box, done + [head]);
    forall r | r in done + [head] ensures RecordSettled(feed, t, r) {
      if r in done {
        assert RecordSettled(feed, sys, r);
      } else {
        forall k | k in feed.events(head) ensures Settled(t, k) {
          var i :| 0 <= i < |feed.events(head)| && feed.events(head)[i] == k;
          assert Settled(sys, feed.events(head)[i]);
        }
      }
    }
  }

  lemma ForeignKey(feed: Feed, sys: Sys, op: Op, now: real, key: string)
    requires Inv(sys.c) && KeyInv(feed, sys, key)
    requires !Touches(op, Ingress(InterfaceEvent(key)))
    ensures KeyInv(feed, sys.(c := Apply(sys.c, op, now)), key)
  {
    var id := Ingress(InterfaceEvent(key));
    StepSays(sys.c, op, now, id, feed.text(key).contact, feed.text(key).context);
    StepAddsNothing(sys.c, op, now, id);
  }

  lemma EnvironmentKeepsInv(feed: Feed, sys: Sys, op: Op, now: real)
    requires SysInv(feed, sys) && Enabled(feed, sys, Environment(op, now))
    ensures SysInv(feed, sys.(c := Apply(sys.c, op, now)))
  {
    var t := sys.(c := Apply(sys.c, op, now));
    ApplyKeepsInv(sys.c, op, now);
    forall key ensures KeyInv(feed, t, key) {
      assert KeyInv(feed, sys, key);
      ForeignKey(feed, sys, op, now, key);
    }
    CommittedStays(feed, sys, t);
  }

  /** The event handed over: accepted under its texts, now or before. */
  lemma HandedKey(feed: Feed, sys: Sys, key: string, now: real)
    requires Inv(sys.c) && KeyInv(feed, sys, key)
    ensures KeyInv(feed, WithHand(feed, sys, key, now), key)
    ensures Mutate(Prune(sys.c, now), HandOp(feed, key), now).Some?
    ensures WithHand(feed, sys, key, now).accepted[key] > 0
  {
    var op, id := HandOp(feed, key), Ingress(InterfaceEvent(key));
    var text := feed.text(key);
    OfferIsAccepted(sys.c, text.contact, text.context, InterfaceEvent(key), now);
    OfferLeavesAReceipt(sys.c, text.contact, text.context, InterfaceEvent(key), now);
    StepSays(sys.c, op, now, id, text.contact, text.context);
  }

  /** Handing an event over never conflicts, and leaves its key accepted. */
  lemma HandKeepsInv(feed: Feed, sys: Sys, key: string, now: real)
    requires SysInv(feed, sys)
    ensures SysInv(feed, WithHand(feed, sys, key, now))
    ensures Mutate(Prune(sys.c, now), HandOp(feed, key), now).Some?
    ensures WithHand(feed, sys, key, now).accepted[key] > 0
    ensures MoreSettled(sys, WithHand(feed, sys, key, now))
  {
    var op := HandOp(feed, key);
    var out := WithHand(feed, sys, key, now);
    assert KeyInv(feed, sys, key);
    HandedKey(feed, sys, key, now);
    ApplyKeepsInv(sys.c, op, now);
    forall other | other != key ensures KeyInv(feed, out, other) {
      assert KeyInv(feed, sys, other);
      ForeignKey(feed, sys, op, now, other);
      assert out.accepted[other] == sys.accepted[other];
      assert Settled(sys, other) == Settled(out, other);
    }
    assert MoreSettled(sys, out);
    CommittedStays(feed, sys, out);
  }

  lemma PutBackKeepsInv(feed: Feed, sys: Sys)
    requires SysInv(feed, sys)
    ensures SysInv(feed, PutBack(sys))
  {
    RetryKeepsInv(sys.box);
    var t := PutBack(sys);
    BoxMoves(feed, sys, t);
  }

  /** Records move through memory; nothing else changes. */
  lemma BoxMoves(feed: Feed, sys: Sys, t: Sys)
    requires SysInv(feed, sys)
    requires t == sys.(box := t.box, handled := t.handled)
    requires InboxInv(t.box) && t.box.committed == sys.box.committed && sys.box.file <= t.box.file
    requires HandSettled(feed, t)
    ensures SysInv(feed, t)
  {
    assert MoreSettled(sys, t);
    CommittedStays(feed, sys, t);
    forall key ensures KeyInv(feed, t, key) {
      assert KeyInv(feed, sys, key);
      assert Settled(sys, key) == Settled(t, key);
    }
  }

  /** The history grows by events that an explicit branch dropped or by marks. */
  lemma SettlesMore(feed: Feed, sys: Sys, t: Sys)
    requires SysInv(feed, sys)
    requires t == sys.(handled := t.handled, marks := t.marks, skipped := t.skipped)
    requires sys.skipped <= t.skipped && HandSettled(feed, t)
    requires forall key :: key in t.marks ==> key in sys.marks || Settled(t, key)
    ensures SysInv(feed, t)
  {
    assert MoreSettled(sys, t);
    CommittedStays(feed, sys, t);
    forall key ensures KeyInv(feed, t, key) {
      assert KeyInv(feed, sys, key);
    }
  }

  /** Marking the record just handed over. */
  lemma MarkKeepsInv(feed: Feed, sys: Sys, out: Sys, now: real)
    requires Enabled(feed, sys, Hand(now, true)) && out == WithHand(feed, sys, Key(feed, sys), now)
    requires Mutate(Prune(sys.c, now), HandOp(feed, Key(feed, sys)), now).Some?
    requires SysInv(feed, out) && Settled(out, Key(feed, sys))
    ensures SysInv(feed, Step(feed, sys, Hand(now, true)))
  {
    var t := Step(feed, sys, Hand(now, true));
    assert t == out.(handled := sys.handled + 1, marks := out.marks + {Key(feed, sys)}, skipped := out.skipped);
    SettlesMore(feed, out, t);
  }

  lemma HandReturnsKeepsInv(feed: Feed, sys: Sys, now: real, marked: bool)
    requires SysInv(feed, sys) && Enabled(feed, sys, Hand(now, marked))
    ensures SysInv(feed, Step(feed, sys, Hand(now, marked)))
  {
    var key := Key(feed, sys);
    HandKeepsInv(feed, sys, key, now);
    var out := WithHand(feed, sys, key, now);
    if marked {
      MarkKeepsInv(feed, sys, out, now);
    } else {
      PutBackKeepsInv(feed, out);
    }
  }

  lemma HandFailsKeepsInv(feed: Feed, sys: Sys, effect: bool, now: real)
    requires SysInv(feed, sys) && Enabled(feed, sys, HandFails(effect, now))
    ensures SysInv(feed, Step(feed, sys, HandFails(effect, now)))
  {
    if effect {
      HandKeepsInv(feed, sys, Key(feed, sys), now);
      PutBackKeepsInv(feed, WithHand(feed, sys, Key(feed, sys), now));
    } else {
      PutBackKeepsInv(feed, sys);
    }
  }

  /** What each of these events does to the inbox keeps the inbox in order. */
  lemma BoxStepInv(feed: Feed, sys: Sys, e: Event)
    requires InboxInv(sys.box) && Enabled(feed, sys, e)
    requires e.Arrive? || e.Scan? || e.Enqueue? || e.DrainBatch? || e.Crash?
    ensures InboxInv(Step(feed, sys, e).box)
  {
    match e
    case Arrive(bytes) => AppendKeepsInv(sys.box, bytes);
    case Scan(lines, to) => TakeKeepsInv(sys.box, lines, to);
    case Enqueue => QueueKeepsInv(sys.box);
    case DrainBatch(limit) => DrainKeepsInv(sys.box, limit);
    case Crash => RestartKeepsInv(sys.box);
  }

  /** The batch in hand is only taken, or lost, between records. */
  lemma BoxStepHand(feed: Feed, sys: Sys, e: Event)
    requires HandSettled(feed, sys) && Enabled(feed, sys, e)
    requires e.Arrive? || e.Scan? || e.Enqueue? || e.DrainBatch? || e.Crash?
    ensures HandSettled(feed, Step(feed, sys, e))
  {
  }

  lemma BoxStepKeepsInv(feed: Feed, sys: Sys, e: Event)
    requires SysInv(feed, sys) && Enabled(feed, sys, e)
    requires e.Arrive? || e.Scan? || e.Enqueue? || e.DrainBatch? || e.Crash?
    ensures SysInv(feed, Step(feed, sys, e))
  {
    BoxStepInv(feed, sys, e);
    BoxStepHand(feed, sys, e);
    BoxMoves(feed, sys, Step(feed, sys, e));
  }

  lemma SkipKeepsInv(feed: Feed, sys: Sys, e: Event)
    requires SysInv(feed, sys) && Enabled(feed, sys, e) && (e.SkipEvent? || e.FrameFails? || e.Forget?)
    ensures SysInv(feed, Step(feed, sys, e))
  {
    if e.SkipEvent? {
      assert KeyInv(feed, sys, Key(feed, sys));
    }
    SettlesMore(feed, sys, Step(feed, sys, e));
  }

  lemma CommitHeadKeepsInv(feed: Feed, sys: Sys)
    requires SysInv(feed, sys) && Enabled(feed, sys, CommitHead)
    ensures SysInv(feed, Step(feed, sys, CommitHead))
    ensures sys.box.committed <= Step(feed, sys, CommitHead).box.committed
  {
    var t := Step(feed, sys, CommitHead);
    CommitKeepsInv(sys.box);
    CommittedGrows(feed, sys);
    forall key ensures KeyInv(feed, t, key) {
      assert KeyInv(feed, sys, key);
      assert Settled(sys, key) == Settled(t, key);
    }
  }

  lemma StepKeepsInv(feed: Feed, sys: Sys, e: Event)
    requires SysInv(feed, sys) && Enabled(feed, sys, e)
    ensures SysInv(feed, Step(feed, sys, e))
    ensures sys.box.committed <= Step(feed, sys, e).box.committed
  {
    match e
    case Arrive(_) => BoxStepKeepsInv(feed, sys, e);
    case Scan(_, _) => BoxStepKeepsInv(feed, sys, e);
    case Enqueue => BoxStepKeepsInv(feed, sys, e);
    case DrainBatch(_) => BoxStepKeepsInv(feed, sys, e);
    case Crash => BoxStepKeepsInv(feed, sys, e);
    case SkipEvent(_) => SkipKeepsInv(feed, sys, e);
    case FrameFails => SkipKeepsInv(feed, sys, e);
    case Forget(_) => SkipKeepsInv(feed, sys, e);
    case Hand(now, marked) => HandReturnsKeepsInv(feed, sys, now, marked);
    case HandFails(effect, now) => HandFailsKeepsInv(feed, sys, effect, now);
    case BookkeepingFails => PutBackKeepsInv(feed, sys);
    case CommitHead => CommitHeadKeepsInv(feed, sys);
    case Environment(op, now) => EnvironmentKeepsInv(feed, sys, op, now);
  }

  // ------------------------------------------------------------------- theorems

  const EMPTY_BOX := Inbox([], 0, None, [], [], [], [])
  const START := Sys(DEFAULT_STATE, EMPTY_BOX, 0, {}, multiset{}, {})

  ghost predicate Follows(feed: Feed, sys: Sys, events: seq<Event>)
    decreases |events|
  {
    events != [] ==> Enabled(feed, sys, events[0]) && Follows(feed, Step(feed, sys, events[0]), events[1..])
  }

  ghost function After(feed: Feed, sys: Sys, events: seq<Event>): Sys
    requires Follows(feed, sys, events)
    decreases |events|
  {
    if events == [] then sys else After(feed, Step(feed, sys, events[0]), events[1..])
  }

  lemma {:induction false} RunKeepsSysInv(feed: Feed, sys: Sys, events: seq<Event>)
    requires SysInv(feed, sys) && Follows(feed, sys, events)
    ensures SysInv(feed, After(feed, sys, events))
    ensures sys.box.committed <= After(feed, sys, events).box.committed
    decreases |events|
  {
    if events != [] {
      StepKeepsInv(feed, sys, events[0]);
      RunKeepsSysInv(feed, Step(feed, sys, events[0]), events[1..]);
    }
  }

  lemma StartInv(feed: Feed)
    ensures SysInv(feed, START)
  {
    DefaultStateInv();
    assert CommittedLines(EMPTY_BOX, []);
    assert CommittedSettled(feed, START);
    forall key ensures KeyInv(feed, START, key) {
    }
  }

  /** Every call of the run spares the receipt of this one event; those of all others
      may come and go. */
  ghost predicate SparesAlong(feed: Feed, sys: Sys, events: seq<Event>, key: string)
    requires Follows(feed, sys, events)
    decreases |events|
  {
    events == [] || (Spares(sys, events[0], key) && SparesAlong(feed, Step(feed, sys, events[0]), events[1..], key))
  }

  lemma CallKeepsOnce(sys: Sys, op: Op, now: real, key: string)
    requires Inv(sys.c) && OnceInv(sys, key) && Keeps(sys.c, now, Ingress(InterfaceEvent(key)))
    requires !Touches(op, Ingress(InterfaceEvent(key)))
    ensures OnceInv(sys.(c := Apply(sys.c, op, now)), key)
  {
    var id := Ingress(InterfaceEvent(key));
    StepSameFor(sys.c, op, now, id);
    ReceiptMembership(sys.c.ingressReceipts, id);
    ReceiptMembership(Apply(sys.c, op, now).ingressReceipts, id);
  }

  lemma WithHandKeepsOnce(feed: Feed, sys: Sys, handed: string, now: real, key: string)
    requires SysInv(feed, sys) && OnceInv(sys, key) && Keeps(sys.c, now, Ingress(InterfaceEvent(key)))
    ensures OnceInv(WithHand(feed, sys, handed, now), key)
  {
    assert KeyInv(feed, sys, key);
    if handed == key {
      IngressEffect(sys.c, feed.text(key).contact, feed.text(key).context, InterfaceEvent(key), now);
    } else {
      CallKeepsOnce(sys, HandOp(feed, handed), now, key);
    }
  }

  lemma StepKeepsOnce(feed: Feed, sys: Sys, e: Event, key: string)
    requires SysInv(feed, sys) && OnceInv(sys, key) && Enabled(feed, sys, e) && Spares(sys, e, key)
    ensures OnceInv(Step(feed, sys, e), key)
  {
    match e
    case Hand(now, _) => WithHandKeepsOnce(feed, sys, Key(feed, sys), now, key);
    case HandFails(effect, now) =>
      if effect {
        WithHandKeepsOnce(feed, sys, Key(feed, sys), now, key);
      }
    case Environment(op, now) => CallKeepsOnce(sys, op, now, key);
    case _ =>
  }

  lemma {:induction false} RunKeepsOnce(feed: Feed, sys: Sys, events: seq<Event>, key: string)
    requires SysInv(feed, sys) && OnceInv(sys, key) && Follows(feed, sys, events) && SparesAlong(feed, sys, events, key)
    ensures OnceInv(After(feed, sys, events), key)
    decreases |events|
  {
    if events != [] {
      StepKeepsInv(feed, sys, events[0]);
      StepKeepsOnce(feed, sys, events[0], key);
      RunKeepsOnce(feed, Step(feed, sys, events[0]), events[1..], key);
    }
  }

  /** Over any interleaving with crashes and failed hand-offs: once the cursor has
      passed an event's record the event became a root or an explicit branch dropped
      it, whatever was evicted; and while its own receipt is retained it never
      becomes a second one. */
  lemma ExactlyOnceInbox(feed: Feed, events: seq<Event>, r: Record, key: string)
    requires Follows(feed, START, events)
    ensures var sys := After(feed, START, events);
            && sys.box.committed <= |sys.box.file|
            && (r in Records(sys.box.file, 0) && r.end <= sys.box.committed && key in feed.events(r) ==>
                  sys.accepted[key] > 0 || key in sys.skipped)
            && (SparesAlong(feed, START, events, key) ==> sys.accepted[key] <= 1)
  {
    StartInv(feed);
    RunKeepsSysInv(feed, START, events);
    var sys := After(feed, START, events);
    if SparesAlong(feed, START, events, key) {
      RunKeepsOnce(feed, START, events, key);
    }
    if key in feed.events(r) {
      PassedIsSettled(feed, sys, r, key);
    }
  }

  lemma PassedIsSettled(feed: Feed, sys: Sys, r: Record, key: string)
    requires SysInv(feed, sys) && key in feed.events(r)
    ensures sys.box.committed <= |sys.box.file|
    ensures r in Records(sys.box.file, 0) && r.end <= sys.box.committed ==> Settled(sys, key)
  {
    var done :| CommittedLines(sys.box, done) && forall x :: x in done ==> RecordSettled(feed, sys, x);
    ChainThenRecords(sys.box.file, 0, done, sys.box.committed);
    ChainBounds(sys.box.file, 0, done, sys.box.committed);
    if r in Records(sys.box.file, 0) && r.end <= sys.box.committed {
      RecordsBeyond(sys.box.file, sys.box.committed, r);
      assert r in done;
      assert RecordSettled(feed, sys, r);
    }
  }

  lemma {:induction false} RecordsBeyond(file: Bytes, from: nat, r: Record)
    requires from <= |file|
    ensures r in Records(file, from) ==> r.end > from
    decreases |file| - from
  {
    var k := LineBreak(file, from);
    if k < |file| {
      RecordsBeyond(file, k + 1, r);
    }
  }

  /** At every moment the records after the cursor are the batch in hand, what was
      put back, what is queued, what was just read, and the unread rest of the file. */
  lemma InboxPipeline(feed: Feed, events: seq<Event>)
    requires Follows(feed, START, events)
    ensures var b := After(feed, START, events).box;
            && b.committed <= ScanFrom(b) <= |b.file|
            && Records(b.file, b.committed) == b.hand + b.retry + b.queue + b.scanned + Records(b.file, ScanFrom(b))
  {
    StartInv(feed);
    RunKeepsSysInv(feed, START, events);
    var b := After(feed, START, events).box;
    PipelineRefinesTheFile(b);
    ChainBounds(b.file, b.committed, InFlight(b), ScanFrom(b));
  }

  /** A hand-over that returns is always accepted: with texts fixed by the event the
      coordinator never sees a conflicting reuse of an identity, whatever was evicted. */
  lemma HandOverNeverConflicts(feed: Feed, events: seq<Event>, now: real)
    requires Follows(feed, START, events) && HasEvent(feed, After(feed, START, events))
    ensures var sys := After(feed, START, events);
            Mutate(Prune(sys.c, now), HandOp(feed, Key(feed, sys)), now).Some?
  {
    StartInv(feed);
    RunKeepsSysInv(feed, START, events);
    var sys := After(feed, START, events);
    HandKeepsInv(feed, sys, Key(feed, sys), now);
  }
}
