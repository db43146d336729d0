/** What a send does when nothing stands in its way, and what it takes for a hand-off to end
    up in the ordinary queue instead. */
module ManagerHandoffSends {
  import opened Common
  import opened MaintenanceModel
  import opened MaintenanceInvariant
  import opened IdentityFrames
  import opened ManagerQueue
  import opened ManagerHandoff
  import opened ManagerHandoffProof
  import opened ManagerHandoffSteps
  import opened ManagerHandoffTheorem
  import Effects = MaintenanceEffects

  // ------------------------------------------------------- nothing offered so far

  /** A hand-off not begun, or whose intent is not journalled, is mentioned nowhere. */
  ghost predicate Unoffered(sys: Sys, h: nat) {
    h !in sys.senders || sys.senders[h].Acquired? ==>
      && Unheard(sys.c, Handoff(h)) && Unheard(sys.c, Ingress(ManagerMessage(h)))
      && sys.continuations[h] == 0 && sys.ingresses[h] == 0
      && !InQueue(sys.queue, h) && (sys.drainer.Passing? ==> !InQueue(sys.drainer.todo, h))
  }

  predicate Early(sys: Sys, h: nat) {
    h !in sys.senders || sys.senders[h].Acquired?
  }

  /** A call that is not about the hand-off leaves it unheard. */
  lemma CallLeavesUnheard(sys: Sys, t: Sys, op: Op, now: real, h: nat)
    requires Inv(sys.c) && Unoffered(sys, h) && (Early(t, h) ==> Early(sys, h))
    requires !Touches(op, Handoff(h)) && !Touches(op, Ingress(ManagerMessage(h)))
    requires t.c == Apply(sys.c, op, now)
    requires t.continuations[h] == sys.continuations[h] && t.ingresses[h] == sys.ingresses[h]
    requires InQueue(t.queue, h) ==> InQueue(sys.queue, h)
    requires t.drainer.Passing? && InQueue(t.drainer.todo, h) ==> sys.drainer.Passing? && InQueue(sys.drainer.todo, h)
    ensures Unoffered(t, h)
  {
    if Early(t, h) {
      StepUnheard(sys.c, op, now, Handoff(h));
      StepUnheard(sys.c, op, now, Ingress(ManagerMessage(h)));
    }
  }

  lemma QuietLeavesUnoffered(sys: Sys, t: Sys, h: nat)
    requires Unoffered(sys, h) && (Early(t, h) ==> Early(sys, h))
    requires t.c == sys.c && t.continuations == sys.continuations && t.ingresses == sys.ingresses
    requires Early(t, h) && InQueue(t.queue, h) ==> InQueue(sys.queue, h)
    requires Early(t, h) && t.drainer.Passing? && InQueue(t.drainer.todo, h) ==>
               InQueue(sys.queue, h) || (sys.drainer.Passing? && InQueue(sys.drainer.todo, h))
    ensures Unoffered(t, h)
  {
  }

  lemma AppendStepUnoffered(sys: Sys, e: Event, h: nat)
    requires Base(sys) && Unoffered(sys, h) && Enabled(sys, e) && (e.Journal? || e.FallBack?)
    ensures Unoffered(Step(sys, e), h)
  {
    var t := Step(sys, e);
    if t.queue != sys.queue {
      AppendMembership(sys.queue, t.queue[|sys.queue|], h);
      assert t.queue == sys.queue + [t.queue[|sys.queue|]];
    }
    QuietLeavesUnoffered(sys, t, h);
  }

  lemma RemovalUnoffered(sys: Sys, e: Event, h: nat)
    requires Base(sys) && Unoffered(sys, h) && Enabled(sys, e) && (e.FinishRemoving? || e.Withdraw?)
    ensures Unoffered(Step(sys, e), h)
  {
    WithoutMembership(sys.queue, {e.h}, h);
    QuietLeavesUnoffered(sys, Step(sys, e), h);
  }

  lemma SenderStepUnoffered(sys: Sys, e: Event, h: nat)
    requires Base(sys) && Unoffered(sys, h) && Enabled(sys, e)
    requires e.BeginPlain? || e.FinishKeeping? || e.SenderDies? || e.Crash? || e.DrainerDies?
    ensures Unoffered(Step(sys, e), h)
  {
    QuietLeavesUnoffered(sys, Step(sys, e), h);
  }

  lemma PassStepUnoffered(sys: Sys, e: Event, h: nat)
    requires Base(sys) && Unoffered(sys, h) && Enabled(sys, e) && (e.PassBegin? || e.PassSkip? || e.PassEnd?)
    ensures Unoffered(Step(sys, e), h)
  {
    var t := Step(sys, e);
    if e.PassSkip? {
      SkippedAreThere(sys.drainer.todo, sys.drainer.todo[e.at].message.to);
      SubsetMembership(sys.drainer.todo, t.drainer.todo, h);
    } else if e.PassEnd? {
      WithoutMembership(sys.queue, sys.drainer.delivered, h);
    }
    QuietLeavesUnoffered(sys, t, h);
  }

  /** Offering another hand-off, from its sender or from a pass. */
  lemma OfferLeavesUnoffered(sys: Sys, t: Sys, x: nat, ingress: bool, now: real, h: nat)
    requires Base(sys) && Unoffered(sys, h) && x in sys.texts && (!ingress ==> x in sys.leases)
    requires Early(sys, h) ==> x != h
    requires t.c == if ingress then WithIngress(sys, x, now).c else WithHand(sys, x, now).c
    requires t.continuations == if ingress then sys.continuations else WithHand(sys, x, now).continuations
    requires t.ingresses == if ingress then WithIngress(sys, x, now).ingresses else sys.ingresses
    requires t.queue == sys.queue && (Early(t, h) ==> Early(sys, h))
    requires t.drainer.Passing? && InQueue(t.drainer.todo, h) ==> sys.drainer.Passing? && InQueue(sys.drainer.todo, h)
    ensures Unoffered(t, h)
  {
    if Early(t, h) {
      CallLeavesUnheard(sys, t, if ingress then IngressOp(sys, x) else HandOp(sys, x), now, h);
    }
  }

  lemma HandStepUnoffered(sys: Sys, e: Event, h: nat)
    requires Base(sys) && Unoffered(sys, h) && Enabled(sys, e) && e.Hand?
    ensures Unoffered(Step(sys, e), h)
  {
    if e.call == RaisedBefore {
      QuietLeavesUnoffered(sys, Step(sys, e), h);
    } else {
      OfferLeavesUnoffered(sys, Step(sys, e), e.h, false, e.now, h);
    }
  }

  /** What is left to do after an offer was part of what there was to do. */
  lemma TodoShrinks(todo: seq<Item>, at: nat, h: nat)
    requires at < |todo|
    ensures InQueue(SkipRecipient(todo, todo[at].message.to), h) ==> InQueue(todo, h)
    ensures InQueue(Without(todo, {todo[at].id}), h) ==> InQueue(todo, h)
    ensures InQueue(todo, todo[at].id)
  {
    SkippedAreThere(todo, todo[at].message.to);
    SubsetMembership(todo, SkipRecipient(todo, todo[at].message.to), h);
    WithoutMembership(todo, {todo[at].id}, h);
  }

  lemma ResumeStepUnoffered(sys: Sys, e: Event, h: nat)
    requires Base(sys) && Unoffered(sys, h) && Enabled(sys, e) && e.PassResume?
    ensures Unoffered(Step(sys, e), h)
  {
    TodoShrinks(sys.drainer.todo, e.at, h);
    assert ItemKnown(sys, sys.drainer.todo[e.at]);
    if e.call == RaisedBefore {
      QuietLeavesUnoffered(sys, Step(sys, e), h);
    } else {
      OfferLeavesUnoffered(sys, Step(sys, e), sys.drainer.todo[e.at].id, false, e.now, h);
    }
  }

  lemma IngressStepUnoffered(sys: Sys, e: Event, h: nat)
    requires Base(sys) && Unoffered(sys, h) && Enabled(sys, e) && e.PassIngress?
    ensures Unoffered(Step(sys, e), h)
  {
    var x := sys.drainer.todo[e.at].id;
    TodoShrinks(sys.drainer.todo, e.at, h);
    assert ItemKnown(sys, sys.drainer.todo[e.at]);
    if e.call == RaisedBefore || (e.call == Returned && !IngressAccepted(sys, x, e.now)) {
      QuietLeavesUnoffered(sys, Step(sys, e), h);
    } else {
      OfferLeavesUnoffered(sys, Step(sys, e), x, true, e.now, h);
    }
  }

  lemma CallStepUnoffered(sys: Sys, e: Event, h: nat)
    requires Base(sys) && Unoffered(sys, h) && Enabled(sys, e) && (e.LetGo? || e.Environment?)
    ensures Unoffered(Step(sys, e), h)
  {
    if e.LetGo? && e.call == RaisedBefore {
      QuietLeavesUnoffered(sys, Step(sys, e), h);
    } else {
      CallLeavesUnheard(sys, Step(sys, e), if e.LetGo? then OpRelease(sys.senders[e.h].lease) else e.op, e.now, h);
    }
  }

  lemma BeginStepUnoffered(sys: Sys, e: Event, h: nat)
    requires Base(sys) && Unoffered(sys, h) && Enabled(sys, e) && e.Begin?
    ensures Unoffered(Step(sys, e), h)
  {
    CallLeavesUnheard(sys, Step(sys, e), OpAcquire("manager_handoff", e.parent, e.ttl), e.now, h);
  }

  lemma QueueStepUnoffered(sys: Sys, e: Event, h: nat)
    requires Base(sys) && Unoffered(sys, h) && Enabled(sys, e)
    requires e.Journal? || e.FallBack? || e.FinishRemoving? || e.Withdraw? || e.PassBegin? || e.PassSkip? || e.PassEnd?
    ensures Unoffered(Step(sys, e), h)
  {
    if e.Journal? || e.FallBack? {
      AppendStepUnoffered(sys, e, h);
    } else if e.FinishRemoving? || e.Withdraw? {
      RemovalUnoffered(sys, e, h);
    } else {
      PassStepUnoffered(sys, e, h);
    }
  }

  lemma CoordinatorStepUnoffered(sys: Sys, e: Event, h: nat)
    requires Base(sys) && Unoffered(sys, h) && Enabled(sys, e)
    requires e.Begin? || e.Hand? || e.LetGo? || e.Environment? || e.PassResume? || e.PassIngress?
    ensures Unoffered(Step(sys, e), h)
  {
    match e
    case Begin(_, _, _, _, _) => BeginStepUnoffered(sys, e, h);
    case Hand(_, _, _) => HandStepUnoffered(sys, e, h);
    case PassResume(_, _, _) => ResumeStepUnoffered(sys, e, h);
    case PassIngress(_, _, _) => IngressStepUnoffered(sys, e, h);
    case LetGo(_, _, _) => CallStepUnoffered(sys, e, h);
    case Environment(_, _) => CallStepUnoffered(sys, e, h);
  }

  lemma StepKeepsUnoffered(sys: Sys, e: Event, h: nat)
    requires Base(sys) && Unoffered(sys, h) && Enabled(sys, e)
    ensures Unoffered(Step(sys, e), h)
  {
    if e.Begin? || e.Hand? || e.LetGo? || e.Environment? || e.PassResume? || e.PassIngress? {
      CoordinatorStepUnoffered(sys, e, h);
    } else if e.Journal? || e.FallBack? || e.FinishRemoving? || e.Withdraw? || e.PassBegin? || e.PassSkip? || e.PassEnd? {
      QueueStepUnoffered(sys, e, h);
    } else {
      SenderStepUnoffered(sys, e, h);
    }
  }

  lemma {:induction false} RunKeepsUnoffered(sys: Sys, events: seq<Event>, h: nat)
    requires Base(sys) && Unoffered(sys, h) && Follows(sys, events)
    ensures Base(After(sys, events)) && Unoffered(After(sys, events), h)
    decreases |events|
  {
    if events != [] {
      StepKeepsUnoffered(sys, events[0], h);
      StepKeepsBase(sys, events[0]);
      RunKeepsUnoffered(Step(sys, events[0]), events[1..], h);
    }
  }

  lemma Reached(events: seq<Event>, h: nat)
    requires Follows(START, events)
    ensures Base(After(START, events)) && Unoffered(After(START, events), h)
  {
    StartInv(h);
    RunKeepsUnoffered(START, events, h);
  }

  // ------------------------------------------------------------------ one send

  predicate LiveAt(s: State, lease: nat, now: real) {
    lease in s.leases && s.leases[lease].expiresAt > now
  }

  /** Journalling writes the prepared record exactly when there is room for it. */
  lemma JournalWrites(sys: Sys, h: nat)
    requires Base(sys) && Enabled(sys, Journal(h))
    ensures var lease, t := sys.senders[h].lease, Step(sys, Journal(h));
            if |sys.queue| < 1_000 then
              t == sys.(queue := sys.queue + [Item(h, sys.texts[h], Some(lease))],
                        senders := sys.senders[h := Prepared(lease)])
            else t == sys.(senders := sys.senders[h := Withdrawn(lease)])
  {
    assert Unqueued(sys, h);
    var k := ItemIndex(sys.queue, h);
  }

  /** The root a transfer leaves behind: the hand-off's identity, its recipient and text, and
      the lineage and epoch of the lease it was made under. */
  predicate IsContinuation(r: Root, h: nat, message: Message, lease: nat, from: Lease) {
    && r.queueId == Handoff(h) && r.contact == message.to && r.context == message.lineageContext
    && r.claim == Unclaimed && r.transfer == Some(Transfer(from.admittedEpoch, from.lineage, lease))
  }

  /** Offering a hand-off nobody heard of, under a live lease: the coordinator takes it. */
  lemma HandTakes(sys: Sys, h: nat, now: real)
    requires Inv(sys.c) && h in sys.texts && h in sys.leases && Unheard(sys.c, Handoff(h))
    requires LiveAt(sys.c, sys.leases[h], now)
    ensures HandAccepted(sys, h, now)
    ensures var t := WithHand(sys, h, now);
            && t == sys.(c := t.c, continuations := sys.continuations + multiset{h})
            && |t.c.roots| == |sys.c.roots| + 1 && sys.leases[h] !in t.c.leases
            && IsContinuation(t.c.roots[|sys.c.roots|], h, sys.texts[h], sys.leases[h], sys.c.leases[sys.leases[h]])
  {
    var p, id, op := Prune(sys.c, now), Handoff(h), HandOp(sys, h);
    PruneKeepsInv(sys.c, now);
    Effects.PruneTidies(sys.c, now);
    PrunedUnheard(sys.c, now, id);
    Effects.ContinuationTakes(p, sys.texts[h].to, sys.texts[h].lineageContext, sys.leases[h], Some(id), now);
  }

  lemma PrunedUnheard(s: State, now: real, id: QueueId)
    requires Inv(s) && Unheard(s, id) && Effects.Tidied(s, Prune(s, now), now)
    ensures !Effects.Receipted(Prune(s, now).continuationReceipts, id) && !Effects.Waiting(Prune(s, now).roots, id)
  {
    var p := Prune(s, now);
    forall r | r in p.roots ensures r.queueId != id {
      var i :| 0 <= i < |p.roots| && p.roots[i] == r;
      assert s.roots[i].queueId == r.queueId;
    }
  }

  lemma WithoutTheLast(queue: seq<Item>, item: Item)
    requires !InQueue(queue, item.id)
    ensures Without(queue + [item], {item.id}) == queue
  {
    WithoutSnoc(queue, {item.id}, item);
    NoneWithout(queue, item.id);
  }

  lemma {:induction false} NoneWithout(queue: seq<Item>, h: nat)
    requires !InQueue(queue, h)
    ensures Without(queue, {h}) == queue
  {
    if queue != [] {
      assert queue[0].id != h;
      assert !InQueue(queue[1..], h) by {
        assert forall i :: 0 <= i < |queue[1..]| ==> queue[1..][i] == queue[i + 1];
      }
      NoneWithout(queue[1..], h);
    }
  }

  /** One more step in front of a run. */
  ghost predicate Goes(sys: Sys, e: Event, t: Sys) {
    Known(sys) && Enabled(sys, e) && Step(sys, e) == t
  }

  lemma ThreeSteps(sys: Sys, a: Event, b: Event, c: Event, s1: Sys, s2: Sys) returns (run: seq<Event>)
    requires Goes(sys, a, s1) && Goes(s1, b, s2) && Known(s2) && Enabled(s2, c)
    ensures run == [a, b, c] && Follows(sys, run) && After(sys, run) == Step(s2, c)
  {
    var s3 := Step(s2, c);
    assert [c][1..] == [] && [b, c][1..] == [c] && [a, b, c][1..] == [b, c];
    assert Follows(s3, []) && After(s3, []) == s3;
    assert Follows(s2, [c]) && After(s2, [c]) == After(s3, []);
    assert Follows(s1, [b, c]) && After(s1, [b, c]) == After(s2, [c]);
    run := [a, b, c];
  }

  /** What a send leaves: done, out of the queue, and exactly one root more, the continuation. */
  ghost predicate Sent(sys: Sys, t: Sys, h: nat)
    requires h in sys.texts && h in sys.leases && sys.leases[h] in sys.c.leases
  {
    && In(t, h, Done) && t.queue == sys.queue && !InQueue(t.queue, h)
    && t.continuations == sys.continuations + multiset{h} && t.ingresses == sys.ingresses
    && t.continuations[h] == 1 && t.ingresses[h] == 0
    && |t.c.roots| == |sys.c.roots| + 1
    && IsContinuation(t.c.roots[|sys.c.roots|], h, sys.texts[h], sys.leases[h], sys.c.leases[sys.leases[h]])
    && sys.leases[h] !in t.c.leases
  }

  lemma SendStep(sys: Sys, h: nat, now: real)
    requires Base(sys) && Unoffered(sys, h) && h in sys.senders && sys.senders[h].Acquired?
    requires LiveAt(sys.c, sys.senders[h].lease, now) && |sys.queue| < 1_000
    ensures h in sys.texts && h in sys.leases && sys.leases[h] == sys.senders[h].lease
    ensures var s1 := Step(sys, Journal(h));
            && Base(s1) && Enabled(s1, Hand(h, Returned, now))
            && var s2 := Step(s1, Hand(h, Returned, now));
               && Base(s2) && Enabled(s2, FinishRemoving(h))
               && Sent(sys, Step(s2, FinishRemoving(h)), h)
  {
    JournalWrites(sys, h);
    StepKeepsBase(sys, Journal(h));
    var s1 := Step(sys, Journal(h));
    HandTakes(s1, h, now);
    StepKeepsBase(s1, Hand(h, Returned, now));
    WithoutTheLast(sys.queue, Item(h, sys.texts[h], Some(sys.senders[h].lease)));
  }

  lemma SendRun(sys: Sys, h: nat, now: real) returns (send: seq<Event>)
    requires Base(sys) && Unoffered(sys, h) && h in sys.senders && sys.senders[h].Acquired?
    requires LiveAt(sys.c, sys.senders[h].lease, now) && |sys.queue| < 1_000
    ensures send == [Journal(h), Hand(h, Returned, now), FinishRemoving(h)]
    ensures h in sys.texts && h in sys.leases && sys.leases[h] == sys.senders[h].lease
    ensures Follows(sys, send) && Sent(sys, After(sys, send), h)
  {
    SendStep(sys, h, now);
    var s1 := Step(sys, Journal(h));
    send := ThreeSteps(sys, Journal(h), Hand(h, Returned, now), FinishRemoving(h), s1, Step(s1, Hand(h, Returned, now)));
  }

  /** A send that nothing stands in the way of, in any reachable system: under a live activity
      and with room in the queue file, it becomes the recipient's continuation, once, and
      leaves no record behind. */
  lemma SendBecomesTheContinuation(events: seq<Event>, h: nat, now: real) returns (send: seq<Event>)
    requires Follows(START, events)
    requires var sys := After(START, events);
             && h in sys.senders && sys.senders[h].Acquired?
             && LiveAt(sys.c, sys.senders[h].lease, now) && |sys.queue| < 1_000
    ensures send == [Journal(h), Hand(h, Returned, now), FinishRemoving(h)]
    ensures var sys := After(START, events);
            && h in sys.texts && h in sys.leases && sys.leases[h] == sys.senders[h].lease
            && Follows(sys, send) && Sent(sys, After(sys, send), h)
  {
    Reached(events, h);
    send := SendRun(After(START, events), h, now);
  }

  /** The coordinator would admit an activity at this time under this parent. */
  predicate WouldAdmit(s: State, parent: Option<ActivityToken>, now: real) {
    || s.phase == Available || Effects.DrainExpired(s, now)
    || (parent.Some? && LiveAt(s, parent.value.leaseId, now) && parent.value.admittedEpoch < s.epoch)
  }

  /** Begun while the coordinator admits it, a send holds a lease for as long as asked, in
      its parent's lineage. */
  lemma BeginHolds(sys: Sys, h: nat, message: Message, parent: Option<ActivityToken>, ttl: real, now: real)
    requires Base(sys) && Enabled(sys, Begin(h, message, parent, ttl, now)) && WouldAdmit(sys.c, parent, now)
    ensures var t := Step(sys, Begin(h, message, parent, ttl, now));
            && h in t.senders && t.senders[h].Acquired?
            && var lease := t.senders[h].lease;
            && lease in t.c.leases && t.c.leases[lease].expiresAt == now + (if ttl < 5.0 then 5.0 else ttl)
            && (parent.Some? ==> t.c.leases[lease].lineage == parent.value.lineage)
            && |t.c.roots| == |sys.c.roots|
            && t == sys.(c := t.c, texts := sys.texts[h := message], leases := sys.leases[h := lease],
                         senders := sys.senders[h := Acquired(lease)])
  {
    PruneKeepsInv(sys.c, now);
    Effects.PruneTidies(sys.c, now);
    Effects.AcquireAdmits(Prune(sys.c, now), "manager_handoff", parent, ttl, now);
  }

  /** The message is with its recipient: one root, of the hand-off's identity and its texts,
      in the lineage it was sent from, and no record left in the queue file. */
  predicate Arrived(sys: Sys, t: Sys, h: nat, message: Message, parent: Option<ActivityToken>) {
    && In(t, h, Done) && t.queue == sys.queue && t.continuations[h] == 1 && t.ingresses[h] == 0
    && |t.c.roots| == |sys.c.roots| + 1
    && var r := t.c.roots[|sys.c.roots|];
    && r.queueId == Handoff(h) && r.contact == message.to && r.context == message.lineageContext
    && r.claim == Unclaimed && r.transfer.Some?
    && (parent.Some? ==> r.transfer.value.lineage == parent.value.lineage)
  }

  /** What the send itself leaves is, seen from before it was begun, the message's arrival. */
  lemma SentArrives(sys: Sys, begun: Sys, t: Sys, h: nat, message: Message, parent: Option<ActivityToken>)
    requires h in begun.texts && begun.texts[h] == message && begun.queue == sys.queue && |begun.c.roots| == |sys.c.roots|
    requires h in begun.leases && begun.leases[h] in begun.c.leases && Sent(begun, t, h)
    requires parent.Some? ==> begun.c.leases[begun.leases[h]].lineage == parent.value.lineage
    ensures Arrived(sys, t, h, message, parent)
  {
  }

  lemma BegunStep(sys: Sys, e: Event, h: nat)
    requires Base(sys) && Unoffered(sys, h) && Enabled(sys, e) && e.Begin? && e.h == h
    ensures Base(Step(sys, e)) && Unoffered(Step(sys, e), h)
  {
    StepKeepsBase(sys, e);
    StepKeepsUnoffered(sys, e, h);
  }

  lemma OneMore(sys: Sys, e: Event, t: Sys, rest: seq<Event>)
    requires Goes(sys, e, t) && Follows(t, rest)
    ensures Follows(sys, [e] + rest) && After(sys, [e] + rest) == After(t, rest)
  {
    assert ([e] + rest)[1..] == rest;
  }

  /** The send holds a lease that lasts beyond the moment it is offered. */
  ghost predicate Begun(sys: Sys, begun: Sys, h: nat, message: Message, parent: Option<ActivityToken>, later: real) {
    && h in begun.senders && begun.senders[h].Acquired? && h in begun.texts && begun.texts[h] == message
    && begun.queue == sys.queue && |begun.c.roots| == |sys.c.roots|
    && LiveAt(begun.c, begun.senders[h].lease, later)
    && (parent.Some? ==> begun.c.leases[begun.senders[h].lease].lineage == parent.value.lineage)
  }

  lemma ThenSent(sys: Sys, begun: Sys, h: nat, message: Message, parent: Option<ActivityToken>, later: real)
    returns (send: seq<Event>)
    requires Base(begun) && Unoffered(begun, h) && Begun(sys, begun, h, message, parent, later) && |sys.queue| < 1_000
    ensures send == [Journal(h), Hand(h, Returned, later), FinishRemoving(h)] && Follows(begun, send)
    ensures Arrived(sys, After(begun, send), h, message, parent)
  {
    send := SendRun(begun, h, later);
    SentArrives(sys, begun, After(begun, send), h, message, parent);
  }

  lemma BeginIsBegun(sys: Sys, e: Event, h: nat, later: real)
    requires Base(sys) && Unoffered(sys, h) && Enabled(sys, e) && e.Begin? && e.h == h
    requires WouldAdmit(sys.c, e.parent, e.now) && later < e.now + (if e.ttl < 5.0 then 5.0 else e.ttl)
    ensures Base(Step(sys, e)) && Unoffered(Step(sys, e), h) && Begun(sys, Step(sys, e), h, e.message, e.parent, later)
  {
    BegunStep(sys, e, h);
    BeginHolds(sys, h, e.message, e.parent, e.ttl, e.now);
  }

  lemma BegunThenSent(sys: Sys, e: Event, begun: Sys, h: nat, message: Message, parent: Option<ActivityToken>,
                      later: real) returns (send: seq<Event>)
    requires Goes(sys, e, begun) && Base(begun) && Unoffered(begun, h)
    requires Begun(sys, begun, h, message, parent, later) && |sys.queue| < 1_000
    ensures send == [e] + [Journal(h), Hand(h, Returned, later), FinishRemoving(h)] && Follows(sys, send)
    ensures Arrived(sys, After(sys, send), h, message, parent)
  {
    var rest := ThenSent(sys, begun, h, message, parent, later);
    OneMore(sys, e, begun, rest);
    send := [e] + rest;
  }

  lemma AdmittedThenSent(sys: Sys, e: Event, h: nat, later: real) returns (send: seq<Event>)
    requires Base(sys) && Unoffered(sys, h) && Enabled(sys, e) && e.Begin? && e.h == h && |sys.queue| < 1_000
    requires WouldAdmit(sys.c, e.parent, e.now) && later < e.now + (if e.ttl < 5.0 then 5.0 else e.ttl)
    ensures send == [e] + [Journal(h), Hand(h, Returned, later), FinishRemoving(h)] && Follows(sys, send)
    ensures Arrived(sys, After(sys, send), h, e.message, e.parent)
  {
    BeginIsBegun(sys, e, h, later);
    send := BegunThenSent(sys, e, Step(sys, e), h, e.message, e.parent, later);
  }

  /** From any reachable system a send the coordinator admits, offered while its lease lasts
      and with room in the queue file, reaches its recipient in the sender's lineage. */
  lemma AnAdmittedSendArrives(events: seq<Event>, h: nat, message: Message, parent: Option<ActivityToken>, ttl: real,
                              now: real, later: real) returns (send: seq<Event>)
    requires Follows(START, events)
    requires var sys := After(START, events);
             && Enabled(sys, Begin(h, message, parent, ttl, now)) && WouldAdmit(sys.c, parent, now) && |sys.queue| < 1_000
    requires later < now + (if ttl < 5.0 then 5.0 else ttl)
    ensures var sys := After(START, events);
            && send == [Begin(h, message, parent, ttl, now), Journal(h), Hand(h, Returned, later), FinishRemoving(h)]
            && Follows(sys, send) && Arrived(sys, After(sys, send), h, message, parent)
  {
    Reached(events, h);
    send := AdmittedThenSent(After(START, events), Begin(h, message, parent, ttl, now), h, later);
  }

  /** A death or a crash ends what was going on and leaves the documents as they are. */
  lemma InterruptionsLeaveTheDocuments(sys: Sys, e: Event)
    requires Known(sys) && Enabled(sys, e) && (e.SenderDies? || e.DrainerDies? || e.Crash?)
    ensures var t := Step(sys, e);
            && t == sys.(senders := t.senders, drainer := t.drainer) && t.senders.Keys == sys.senders.Keys
            && (forall h :: h in sys.senders && (e.Crash? || (e.SenderDies? && e.h == h)) ==>
                  t.senders[h] == if sys.senders[h] == Done then Done else Failed)
            && (forall h :: h in sys.senders && !e.Crash? && !(e.SenderDies? && e.h == h) ==> t.senders[h] == sys.senders[h])
            && t.drainer == if e.SenderDies? then sys.drainer else Resting
  {
  }

  /** A hand-over that raises after its effect leaves the coordinator as one that returns, and
      the prepared record where it is; one that raises before leaves everything. */
  lemma RaisingHandsLeaveTheRecord(sys: Sys, h: nat, now: real)
    requires Known(sys) && Enabled(sys, Hand(h, RaisedAfter, now))
    ensures var before, behind := Step(sys, Hand(h, RaisedBefore, now)), Step(sys, Hand(h, RaisedAfter, now));
            var returned := Step(sys, Hand(h, Returned, now));
            && before == sys.(senders := sys.senders[h := Done])
            && behind == returned.(senders := sys.senders[h := Done]) && behind.queue == sys.queue
  {
  }

  /** Other traffic is any call on the coordinator; one that raises writes nothing. */
  lemma OtherTrafficIsAnyCall(sys: Sys, op: Op, now: real)
    requires Known(sys) && Enabled(sys, Environment(op, now))
    ensures var out := Mutate(Prune(sys.c, now), op, now);
            Step(sys, Environment(op, now)) == sys.(c := if out.Some? then out.value else sys.c)
  {
  }

  // ------------------------------------------------- why the ordinary queue is used

  /** The hand-off is on its way to, or in, the ordinary queue. */
  ghost predicate Ordinary(sys: Sys, h: nat) {
    || (h in sys.senders && (sys.senders[h].Refused? || sys.senders[h].Withdrawn? || sys.senders[h].FallingBack?))
    || PlainInQueue(sys.queue, h)
    || (sys.drainer.Passing? && PlainInQueue(sys.drainer.todo, h))
  }

  /** Why a hand-off goes to the ordinary queue: it is no work call of a running lineage, the
      coordinator admits no activity, the queue file is full, or the coordinator, which has
      no record of it, does not hold its lease any more. */
  ghost predicate TurnsOrdinary(sys: Sys, e: Event, h: nat) {
    match e
    case BeginPlain(x, _) => x == h
    case Begin(x, _, parent, _, now) => x == h && !WouldAdmit(sys.c, parent, now)
    case Journal(x) => x == h && |sys.queue| >= 1_000
    case Hand(x, call, now) =>
      x == h && call == Returned && h in sys.leases && !LiveAt(sys.c, sys.leases[h], now)
    case _ => false
  }

  lemma BeginTurns(sys: Sys, e: Event, h: nat)
    requires Base(sys) && Enabled(sys, e) && e.Begin? && Ordinary(Step(sys, e), h) && !Ordinary(sys, h)
    ensures TurnsOrdinary(sys, e, h)
  {
    PruneKeepsInv(sys.c, e.now);
    Effects.PruneTidies(sys.c, e.now);
    Effects.AcquireAdmits(Prune(sys.c, e.now), "manager_handoff", e.parent, e.ttl, e.now);
  }

  /** A hand-over under a live lease is never refused: the texts on record are its own. */
  lemma LiveIsNotRefused(sys: Sys, h: nat, now: real)
    requires Base(sys) && h in sys.texts && h in sys.leases && LiveAt(sys.c, sys.leases[h], now)
    ensures HandAccepted(sys, h, now)
  {
    var p, id := Prune(sys.c, now), Handoff(h);
    assert TextsOf(sys, h);
    PruneSays(sys.c, now, id, sys.texts[h].to, sys.texts[h].lineageContext);
    PruneKeepsInv(sys.c, now);
    Effects.PruneTidies(sys.c, now);
    Effects.ContinuationTakes(p, sys.texts[h].to, sys.texts[h].lineageContext, sys.leases[h], Some(id), now);
    if Effects.Receipted(p.continuationReceipts, id) {
      var r :| r in p.continuationReceipts && r.queueId == id;
      assert Effects.Says(r, id, sys.texts[h].to, sys.texts[h].lineageContext);
    } else if Effects.Waiting(p.roots, id) {
      var r :| r in p.roots && r.queueId == id;
      assert r.contact == sys.texts[h].to;
    }
  }

  lemma HandTurns(sys: Sys, e: Event, h: nat)
    requires Base(sys) && Enabled(sys, e) && e.Hand? && Ordinary(Step(sys, e), h) && !Ordinary(sys, h)
    ensures TurnsOrdinary(sys, e, h)
  {
    assert e.h in sys.leases && e.h in sys.texts;
    if LiveAt(sys.c, sys.leases[e.h], e.now) {
      LiveIsNotRefused(sys, e.h, e.now);
    }
  }

  lemma JournalTurns(sys: Sys, e: Event, h: nat)
    requires Base(sys) && Enabled(sys, e) && e.Journal? && Ordinary(Step(sys, e), h) && !Ordinary(sys, h)
    ensures TurnsOrdinary(sys, e, h)
  {
    JournalWrites(sys, e.h);
    if |sys.queue| < 1_000 {
      AppendMembership(sys.queue, Item(e.h, sys.texts[e.h], Some(sys.senders[e.h].lease)), h);
    }
  }

  lemma AppendTurns(sys: Sys, e: Event, h: nat)
    requires Base(sys) && Enabled(sys, e) && (e.FallBack? || e.FinishRemoving? || e.Withdraw?)
    requires Ordinary(Step(sys, e), h)
    ensures Ordinary(sys, h)
  {
    var t := Step(sys, e);
    if e.FallBack? {
      if t.queue != sys.queue {
        AppendMembership(sys.queue, t.queue[|sys.queue|], h);
        assert t.queue == sys.queue + [t.queue[|sys.queue|]];
      }
    } else {
      WithoutMembership(sys.queue, {e.h}, h);
    }
  }

  lemma PlainTodoShrinks(todo: seq<Item>, at: nat, h: nat)
    requires at < |todo|
    ensures PlainInQueue(SkipRecipient(todo, todo[at].message.to), h) ==> PlainInQueue(todo, h)
    ensures PlainInQueue(Without(todo, {todo[at].id}), h) ==> PlainInQueue(todo, h)
  {
    SkippedAreThere(todo, todo[at].message.to);
    SubsetMembership(todo, SkipRecipient(todo, todo[at].message.to), h);
    WithoutMembership(todo, {todo[at].id}, h);
  }

  /** A pass that offers or skips an item only shortens what there is to do. */
  ghost predicate Shortened(sys: Sys, t: Sys, h: nat)
    requires sys.drainer.Passing?
  {
    && t.senders == sys.senders && t.queue == sys.queue && t.drainer.Passing?
    && (PlainInQueue(t.drainer.todo, h) ==> PlainInQueue(sys.drainer.todo, h))
  }

  lemma ResumeShortens(sys: Sys, at: nat, call: Call, now: real, h: nat)
    requires Known(sys) && Enabled(sys, PassResume(at, call, now))
    ensures Shortened(sys, Step(sys, PassResume(at, call, now)), h)
  {
    PlainTodoShrinks(sys.drainer.todo, at, h);
  }

  lemma IngressShortens(sys: Sys, at: nat, call: Call, now: real, h: nat)
    requires Known(sys) && Enabled(sys, PassIngress(at, call, now))
    ensures Shortened(sys, Step(sys, PassIngress(at, call, now)), h)
  {
    PlainTodoShrinks(sys.drainer.todo, at, h);
  }

  lemma SkipShortens(sys: Sys, at: nat, h: nat)
    requires Known(sys) && Enabled(sys, PassSkip(at))
    ensures Shortened(sys, Step(sys, PassSkip(at)), h)
  {
    PlainTodoShrinks(sys.drainer.todo, at, h);
  }

  lemma OfferTurns(sys: Sys, e: Event, h: nat)
    requires Base(sys) && Enabled(sys, e) && Ordinary(Step(sys, e), h) && (e.PassResume? || e.PassIngress? || e.PassSkip?)
    ensures Ordinary(sys, h)
  {
    match e
    case PassResume(at, call, now) => ResumeShortens(sys, at, call, now, h);
    case PassIngress(at, call, now) => IngressShortens(sys, at, call, now, h);
    case PassSkip(at) => SkipShortens(sys, at, h);
  }

  lemma PassTurns(sys: Sys, e: Event, h: nat)
    requires Base(sys) && Enabled(sys, e) && Ordinary(Step(sys, e), h) && (e.PassBegin? || e.PassEnd?)
    ensures Ordinary(sys, h)
  {
    if e.PassEnd? {
      WithoutMembership(sys.queue, sys.drainer.delivered, h);
    }
  }

  lemma StepTurns(sys: Sys, e: Event, h: nat)
    requires Base(sys) && Enabled(sys, e) && Ordinary(Step(sys, e), h)
    ensures Ordinary(sys, h) || TurnsOrdinary(sys, e, h)
  {
    if !Ordinary(sys, h) {
      match e
      case Begin(_, _, _, _, _) => BeginTurns(sys, e, h);
      case Hand(_, _, _) => HandTurns(sys, e, h);
      case Journal(_) => JournalTurns(sys, e, h);
      case FallBack(_) => AppendTurns(sys, e, h);
      case FinishRemoving(_) => AppendTurns(sys, e, h);
      case Withdraw(_) => AppendTurns(sys, e, h);
      case PassBegin => PassTurns(sys, e, h);
      case PassResume(_, _, _) => OfferTurns(sys, e, h);
      case PassIngress(_, _, _) => OfferTurns(sys, e, h);
      case PassSkip(_) => OfferTurns(sys, e, h);
      case PassEnd => PassTurns(sys, e, h);
      case _ =>
    }
  }

  ghost predicate TurnedOrdinary(sys: Sys, events: seq<Event>, h: nat)
    requires Follows(sys, events)
    decreases |events|
  {
    events != [] && (TurnsOrdinary(sys, events[0], h) || TurnedOrdinary(Step(sys, events[0]), events[1..], h))
  }

  lemma {:induction false} TurnedAlong(sys: Sys, events: seq<Event>, h: nat)
    requires Base(sys) && Follows(sys, events) && Ordinary(After(sys, events), h)
    ensures Ordinary(sys, h) || TurnedOrdinary(sys, events, h)
    decreases |events|
  {
    if events != [] {
      StepKeepsBase(sys, events[0]);
      TurnedAlong(Step(sys, events[0]), events[1..], h);
      if Ordinary(Step(sys, events[0]), h) {
        StepTurns(sys, events[0], h);
      }
    }
  }

  /** A hand-off is in, or on its way to, the ordinary queue only because it was sent there
      outright, no activity was admitted for it, the queue file was full when its intent was
      to be written, or its lease had run out when it was offered. */
  lemma OrdinaryOnlyForAReason(events: seq<Event>, h: nat)
    requires Follows(START, events) && Ordinary(After(START, events), h)
    ensures TurnedOrdinary(START, events, h)
  {
    StartInv(h);
    TurnedAlong(START, events, h);
  }

  // ------------------------------------------------------------- what is delivered

  /** Whatever root of a hand-off is queued carries its recipient and its text. */
  lemma RootsCarryTheMessage(events: seq<Event>, h: nat, r: Root)
    requires Follows(START, events) && r in After(START, events).c.roots
    requires r.queueId == Handoff(h) || r.queueId == Ingress(ManagerMessage(h))
    ensures var sys := After(START, events);
            && h in sys.texts && r.contact == sys.texts[h].to
            && r.context == if r.queueId.Handoff? then sys.texts[h].lineageContext else sys.texts[h].ingressContext
  {
    StartInv(h);
    RunKeepsBase(START, events);
    var sys := After(START, events);
    assert TextsOf(sys, h);
    var i :| 0 <= i < |sys.c.roots| && sys.c.roots[i] == r;
    assert HasRoot(sys.c, r.queueId);
  }

  /** What a refused send leaves: its activity given up, its prepared record gone, and the
      message in the ordinary queue if there is room. */
  ghost predicate FellBack(sys: Sys, t: Sys, h: nat, lease: nat)
    requires h in sys.texts
  {
    && lease !in t.c.leases
    && (forall x :: x in t.queue && x.id != h <==> x in sys.queue && x.id != h)
    && if |Without(sys.queue, {h})| < 1_000 then
         t.queue == Without(sys.queue, {h}) + [Item(h, sys.texts[h], None)] && In(t, h, Done)
       else !InQueue(t.queue, h) && In(t, h, Failed)
  }

  lemma WithdrawRemoves(sys: Sys, h: nat)
    requires Base(sys) && h in sys.senders && sys.senders[h].Refused?
    ensures Step(sys, Withdraw(h))
         == sys.(queue := Without(sys.queue, {h}), senders := sys.senders[h := Withdrawn(sys.senders[h].lease)])
    ensures Base(Step(sys, Withdraw(h)))
  {
    StepKeepsBase(sys, Withdraw(h));
  }

  lemma LetGoReleases(sys: Sys, h: nat, now: real)
    requires Base(sys) && h in sys.senders && sys.senders[h].Withdrawn?
    ensures var t := Step(sys, LetGo(h, Returned, now));
            && t == sys.(c := t.c, senders := sys.senders[h := FallingBack]) && sys.senders[h].lease !in t.c.leases
            && Base(t)
  {
    StepKeepsBase(sys, LetGo(h, Returned, now));
    Effects.ReleaseDrops(Prune(sys.c, now), sys.senders[h].lease, now);
  }

  lemma FallBackWrites(sys: Sys, h: nat)
    requires Base(sys) && h in sys.senders && sys.senders[h].FallingBack?
    ensures h in sys.texts
    ensures Step(sys, FallBack(h)) ==
            if |sys.queue| < 1_000 then
              sys.(queue := sys.queue + [Item(h, sys.texts[h], None)], senders := sys.senders[h := Done])
            else sys.(senders := sys.senders[h := Failed])
  {
    assert Unqueued(sys, h);
    var k := ItemIndex(sys.queue, h);
  }

  lemma FallBackRound(sys: Sys, h: nat, now: real) returns (s1: Sys, s2: Sys)
    requires Base(sys) && h in sys.senders && sys.senders[h].Refused?
    ensures h in sys.texts && Goes(sys, Withdraw(h), s1) && Goes(s1, LetGo(h, Returned, now), s2)
    ensures Known(s2) && Enabled(s2, FallBack(h))
    ensures FellBack(sys, Step(s2, FallBack(h)), h, sys.senders[h].lease)
  {
    WithdrawRemoves(sys, h);
    s1 := Step(sys, Withdraw(h));
    LetGoReleases(s1, h, now);
    s2 := Step(s1, LetGo(h, Returned, now));
    FallBackWrites(s2, h);
    FellBackThen(sys, Step(s2, FallBack(h)), h, sys.senders[h].lease);
  }

  lemma FellBackThen(sys: Sys, t: Sys, h: nat, lease: nat)
    requires h in sys.texts && lease !in t.c.leases
    requires if |Without(sys.queue, {h})| < 1_000
             then t.queue == Without(sys.queue, {h}) + [Item(h, sys.texts[h], None)] && In(t, h, Done)
             else t.queue == Without(sys.queue, {h}) && In(t, h, Failed)
    ensures FellBack(sys, t, h, lease)
  {
    WithoutMembership(sys.queue, {h}, h);
    WithoutKeepsTheRest(sys.queue, {h});
  }

  lemma FallBackRun(sys: Sys, h: nat, now: real) returns (run: seq<Event>)
    requires Base(sys) && h in sys.senders && sys.senders[h].Refused?
    ensures run == [Withdraw(h), LetGo(h, Returned, now), FallBack(h)] && h in sys.texts && Follows(sys, run)
    ensures FellBack(sys, After(sys, run), h, sys.senders[h].lease)
  {
    var s1, s2 := FallBackRound(sys, h, now);
    run := ThreeSteps(sys, Withdraw(h), LetGo(h, Returned, now), FallBack(h), s1, s2);
  }

  /** A refused send always gets there, from any reachable system. */
  lemma RefusedFallsBack(events: seq<Event>, h: nat, now: real) returns (run: seq<Event>)
    requires Follows(START, events) && h in After(START, events).senders && After(START, events).senders[h].Refused?
    ensures var sys := After(START, events);
            && run == [Withdraw(h), LetGo(h, Returned, now), FallBack(h)] && h in sys.texts && Follows(sys, run)
            && FellBack(sys, After(sys, run), h, sys.senders[h].lease)
  {
    Reached(events, h);
    run := FallBackRun(After(START, events), h, now);
  }
}
