/** Whole runs of the hand-off: exactly once, and what a pass of the drainer does. */
module ManagerHandoffTheorem {
  import opened Common
  import opened MaintenanceModel
  import opened MaintenanceInvariant
  import opened IdentityFrames
  import opened ManagerQueue
  import opened ManagerHandoff
  import opened ManagerHandoffProof
  import opened ManagerHandoffSteps

  const START := Sys(DEFAULT_STATE, [], map[], map[], map[], Resting, multiset{}, multiset{})

  ghost predicate Follows(sys: Sys, events: seq<Event>)
    decreases |events|
  {
    events != [] ==>
      Known(sys) && Enabled(sys, events[0]) && Follows(Step(sys, events[0]), events[1..])
  }

  ghost function After(sys: Sys, events: seq<Event>): Sys
    requires Follows(sys, events)
    decreases |events|
  {
    if events == [] then sys else After(Step(sys, events[0]), events[1..])
  }

  /** Every call of the run spares the receipts of this one hand-off; those of all
      others may come and go. */
  ghost predicate SparesAlong(sys: Sys, events: seq<Event>, h: nat)
    requires Follows(sys, events)
    decreases |events|
  {
    events == [] || (Spares(sys, events[0], h) && SparesAlong(Step(sys, events[0]), events[1..], h))
  }

  lemma {:induction false} RunKeepsBase(sys: Sys, events: seq<Event>)
    requires Base(sys) && Follows(sys, events)
    ensures Base(After(sys, events))
    decreases |events|
  {
    if events != [] {
      StepKeepsBase(sys, events[0]);
      RunKeepsBase(Step(sys, events[0]), events[1..]);
    }
  }

  lemma {:induction false} RunKeepsHandoff(sys: Sys, events: seq<Event>, h: nat)
    requires Base(sys) && HandoffInv(sys, h) && Follows(sys, events) && SparesAlong(sys, events, h)
    ensures HandoffInv(After(sys, events), h)
    decreases |events|
  {
    if events != [] {
      StepKeepsBase(sys, events[0]);
      StepKeepsHandoff(sys, events[0], h);
      RunKeepsHandoff(Step(sys, events[0]), events[1..], h);
    }
  }

  lemma StartInv(h: nat)
    ensures Base(START) && HandoffInv(START, h)
  {
    DefaultStateInv();
  }

  /** In every interleaving with crashes, ambiguous failures, lease expiry and
      drains: while its own receipts are retained a hand-off never yields two roots,
      and one that reported "Done" has yielded its root or is still journalled. */
  lemma ExactlyOnceHandoff(events: seq<Event>, h: nat)
    requires Follows(START, events) && SparesAlong(START, events, h)
    ensures var sys := After(START, events);
            && Created(sys, h) <= 1
            && (In(sys, h, Done) ==> Created(sys, h) == 1 || InQueue(sys.queue, h))
  {
    StartInv(h);
    RunKeepsHandoff(START, events, h);
  }

  /** No queue identity ever collides, whatever was evicted, so falling back after a
      refusal can only fail for lack of room. */
  lemma FallBackNeverConflicts(events: seq<Event>, h: nat)
    requires Follows(START, events) && In(After(START, events), h, FallingBack)
    ensures var sys := After(START, events);
            h in sys.texts && (Append(sys.queue, PlainItem(sys, h)).Appended? <==> |sys.queue| < MANAGER_QUEUE_MAX_ITEMS)
  {
    StartInv(h);
    RunKeepsBase(START, events);
    assert Unqueued(After(START, events), h);
  }

  // -------------------------------------------------------------- an undisturbed pass

  /** The rest of a pass in which every call returns and no item is skipped. */
  ghost predicate Undisturbed(events: seq<Event>) {
    forall i :: 0 <= i < |events| ==> GoesOn(events[i])
  }

  predicate GoesOn(e: Event) {
    (e.PassResume? && e.call == Returned) || (e.PassIngress? && e.call == Returned) || e.PassEnd?
  }

  /** What was journalled when the pass began is still to do or delivered. */
  ghost predicate Covered(sys: Sys) {
    sys.drainer.Passing? &&
    forall h :: InQueue(sys.queue, h) ==> h in sys.drainer.delivered || InQueue(sys.drainer.todo, h)
  }

  lemma PassStepCovers(sys: Sys, e: Event)
    requires Base(sys) && Covered(sys) && Enabled(sys, e) && GoesOn(e) && !e.PassEnd?
    ensures Covered(Step(sys, e)) && Step(sys, e).queue == sys.queue
  {
    var x := sys.drainer.todo[e.at].id;
    assert ItemKnown(sys, sys.drainer.todo[e.at]);
    IngressKeepsBase(sys, x, e.now);
    forall h | InQueue(sys.queue, h) && h != x ensures InQueue(Without(sys.drainer.todo, {x}), h) || h in sys.drainer.delivered {
      WithoutMembership(sys.drainer.todo, {x}, h);
    }
  }

  lemma {:induction false} NothingLeft(queue: seq<Item>, ids: set<nat>)
    requires forall item :: item in queue ==> item.id in ids
    ensures Without(queue, ids) == []
  {
    if queue != [] {
      NothingLeft(queue[1..], ids);
    }
  }

  /** A pass that is over does not go on by itself. */
  lemma NothingAfterTheEnd(sys: Sys, events: seq<Event>)
    requires sys.drainer == Resting && Follows(sys, events) && Undisturbed(events)
    ensures events == []
  {
  }

  lemma EndOfPass(sys: Sys, events: seq<Event>)
    requires Base(sys) && Covered(sys) && Follows(sys, events) && Undisturbed(events)
    requires events != [] && events[0].PassEnd?
    ensures events == [PassEnd] && After(sys, events).queue == []
    ensures forall h :: Created(After(sys, events), h) == Created(sys, h)
    ensures forall h :: InQueue(sys.queue, h) ==> h in sys.drainer.delivered
  {
    assert Undisturbed(events[1..]);
    NothingAfterTheEnd(Step(sys, PassEnd), events[1..]);
    forall h | InQueue(sys.queue, h) ensures h in sys.drainer.delivered {
      assert !InQueue(sys.drainer.todo, h);
    }
    forall item | item in sys.queue ensures item.id in sys.drainer.delivered {
      var i :| 0 <= i < |sys.queue| && sys.queue[i] == item;
      assert InQueue(sys.queue, item.id);
    }
    NothingLeft(sys.queue, sys.drainer.delivered);
    assert events == [PassEnd] && events[1..] == [];
  }

  lemma {:induction false} PassDelivers(sys: Sys, events: seq<Event>, h: nat)
    requires Base(sys) && Covered(sys) && Follows(sys, events) && Undisturbed(events)
    requires After(sys, events).drainer == Resting
    ensures After(sys, events).queue == []
    ensures HandoffInv(sys, h) && SparesAlong(sys, events, h) && InQueue(sys.queue, h) ==>
              Created(After(sys, events), h) == 1
    decreases |events|
  {
    assert events != [];
    var e := events[0];
    if e.PassEnd? {
      EndOfPass(sys, events);
    } else {
      assert Undisturbed(events[1..]);
      PassStepCovers(sys, e);
      StepKeepsBase(sys, e);
      if HandoffInv(sys, h) && SparesAlong(sys, events, h) {
        StepKeepsHandoff(sys, e, h);
      }
      PassDelivers(Step(sys, e), events[1..], h);
    }
  }

  /** A pass from `PassBegin` on: the rest of it, in which every call returns and no item
      is skipped, up to its end. */
  ghost predicate WholePass(sys: Sys, rest: seq<Event>) {
    && Known(sys) && Enabled(sys, PassBegin) && Undisturbed(rest)
    && Follows(Step(sys, PassBegin), rest) && After(Step(sys, PassBegin), rest).drainer == Resting
  }

  ghost function AfterPass(sys: Sys, rest: seq<Event>): Sys
    requires WholePass(sys, rest)
  {
    After(Step(sys, PassBegin), rest)
  }

  /** Every pass that runs from its beginning to its end undisturbed empties the
      queue it found, and every hand-off journalled in it, prepared or plain, has
      its one root. */
  lemma UndisturbedPassDelivers(events: seq<Event>, rest: seq<Event>, h: nat)
    requires Follows(START, events) && WholePass(After(START, events), rest)
    ensures var sys := After(START, events);
            && AfterPass(sys, rest).queue == []
            && (SparesAlong(START, events, h) && SparesAlong(Step(sys, PassBegin), rest, h) && InQueue(sys.queue, h) ==>
                  Created(AfterPass(sys, rest), h) == 1)
  {
    StartInv(h);
    RunKeepsBase(START, events);
    var sys := After(START, events);
    if SparesAlong(START, events, h) {
      RunKeepsHandoff(START, events, h);
      StepKeepsHandoff(sys, PassBegin, h);
    }
    StepKeepsBase(sys, PassBegin);
    PassDelivers(Step(sys, PassBegin), rest, h);
  }

  lemma {:induction false} WithoutHeadShrinks(todo: seq<Item>)
    requires todo != []
    ensures |Without(todo, {todo[0].id})| < |todo|
  {
    WithoutKeepsTheRest(todo[1..], {todo[0].id});
  }

  /** What the pass does with the first item left, and how that brings it forward. */
  lemma HeadStep(sys: Sys, now: real) returns (e: Event)
    requires Base(sys) && sys.drainer.Passing? && sys.drainer.todo != []
    ensures Enabled(sys, e) && GoesOn(e) && Base(Step(sys, e)) && Step(sys, e).drainer.Passing?
    ensures CallAt(e) == Some(now)
    ensures var left := Step(sys, e).drainer.todo;
            || |left| < |sys.drainer.todo|
            || (left == sys.drainer.todo && UnansweredHead(sys) && !UnansweredHead(Step(sys, e)))
  {
    var head := sys.drainer.todo[0];
    assert ItemKnown(sys, head);
    IngressKeepsBase(sys, head.id, now);
    WithoutHeadShrinks(sys.drainer.todo);
    e := if UnansweredHead(sys) then PassResume(0, Returned, now) else PassIngress(0, Returned, now);
    StepKeepsBase(sys, e);
  }

  /** Each event's call, if it makes one, happens when the clock says so. */
  ghost predicate Timed(events: seq<Event>, clock: nat -> real, k: nat)
    decreases |events|
  {
    events == []
    || ((CallAt(events[0]) == None || CallAt(events[0]) == Some(clock(k))) && Timed(events[1..], clock, k + 1))
  }

  lemma TimedCons(e: Event, rest: seq<Event>, clock: nat -> real, k: nat)
    requires (CallAt(e) == None || CallAt(e) == Some(clock(k))) && Timed(rest, clock, k + 1)
    ensures Timed([e] + rest, clock, k)
  {
    assert ([e] + rest)[1..] == rest;
  }

  lemma FollowsCons(sys: Sys, e: Event, rest: seq<Event>)
    requires Known(sys) && Enabled(sys, e) && Follows(Step(sys, e), rest)
    ensures Follows(sys, [e] + rest) && After(sys, [e] + rest) == After(Step(sys, e), rest)
  {
    assert ([e] + rest)[1..] == rest;
  }

  lemma {:induction false} PassFinishes(sys: Sys, clock: nat -> real, k: nat) returns (events: seq<Event>)
    requires Base(sys) && sys.drainer.Passing?
    ensures Follows(sys, events) && Undisturbed(events) && After(sys, events).drainer == Resting
    ensures Timed(events, clock, k)
    decreases if sys.drainer.Passing? then |sys.drainer.todo| else 0, UnansweredHead(sys)
  {
    if sys.drainer.todo == [] {
      events := [PassEnd] + [];
      FollowsCons(sys, PassEnd, []);
      TimedCons(PassEnd, [], clock, k);
    } else {
      var e := HeadStep(sys, clock(k));
      var rest := PassFinishes(Step(sys, e), clock, k + 1);
      events := [e] + rest;
      FollowsCons(sys, e, rest);
      TimedCons(e, rest, clock, k);
    }
  }

  /** The head was not offered to the coordinator in this pass yet. */
  predicate UnansweredHead(sys: Sys) {
    && sys.drainer.Passing? && sys.drainer.todo != []
    && sys.drainer.todo[0].lease.Some? && sys.drainer.todo[0].id !in sys.drainer.refused
  }

  lemma PassOpens(sys: Sys)
    requires Base(sys) && sys.drainer == Resting
    ensures Known(sys) && Enabled(sys, PassBegin) && Base(Step(sys, PassBegin)) && Step(sys, PassBegin).drainer.Passing?
  {
    StepKeepsBase(sys, PassBegin);
  }

  lemma AWholePass(sys: Sys, clock: nat -> real) returns (rest: seq<Event>)
    requires Base(sys) && sys.drainer == Resting
    ensures WholePass(sys, rest) && Timed(rest, clock, 0)
  {
    PassOpens(sys);
    rest := PassFinishes(Step(sys, PassBegin), clock, 0);
  }

  /** A journalled hand-off always gets through the next undisturbed pass, and there
      always is one, whatever the clock shows: afterwards it has its one root and is
      out of the queue. */
  lemma JournalledIsDeliverable(events: seq<Event>, h: nat, clock: nat -> real)
    requires Follows(START, events)
    requires After(START, events).drainer == Resting && InQueue(After(START, events).queue, h)
    ensures exists rest :: WholePass(After(START, events), rest) && Timed(rest, clock, 0)
    ensures forall rest :: WholePass(After(START, events), rest) ==>
              && !InQueue(AfterPass(After(START, events), rest).queue, h)
              && (SparesAlong(START, events, h) && SparesAlong(Step(After(START, events), PassBegin), rest, h) ==>
                    Created(AfterPass(After(START, events), rest), h) == 1)
  {
    var sys := After(START, events);
    assert Base(sys) by {
      StartInv(h);
      RunKeepsBase(START, events);
    }
    var found := AWholePass(sys, clock);
    forall rest | WholePass(sys, rest)
      ensures !InQueue(AfterPass(sys, rest).queue, h)
      ensures SparesAlong(START, events, h) && SparesAlong(Step(sys, PassBegin), rest, h) ==>
                Created(AfterPass(sys, rest), h) == 1
    {
      UndisturbedPassDelivers(events, rest, h);
    }
  }
}
