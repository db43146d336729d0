/** Which registered threads run at all, and which injected messages lose theirs. */
module DispatcherStarts {
  import opened Common
  import opened DispatcherModel
  import opened DispatcherInvariant
  import opened DispatcherSteps
  import opened DispatcherTheorem
  import opened DispatcherRuns

  // ------------------------------------------------------- threads never started

  /** A thread not started yet waits at the top of its run with work to take. */
  ghost predicate WaitsUnstarted(w: World, t: nat) {
    && t in w.threads && w.threads[t].stage.AtTop? && t in w.slots.threads
    && Held(w.slots.pending, w.threads[t].contact) != []
  }

  ghost predicate StartsInv(w: World, calls: set<nat>) {
    forall t :: t in w.unstarted ==> WaitsUnstarted(w, t) && w.unstarted[t] in calls
  }

  predicate RaisesIn(e: Event, k: nat) {
    (e.SubmitRaises? || e.DeferRaises?) && e.k == k
  }

  lemma LiveRuns(w: World, t: nat)
    requires ThreadsInv(w) && t in w.threads && Live(w.threads[t].stage)
    ensures t in w.slots.threads && w.slots.threads[t] == w.threads[t].contact
    ensures w.threads[t].contact in w.slots.running && t < w.slots.nextThread
  {
  }

  /** Of two registered threads one at most is the contact's. */
  lemma OneOwner(w: World, t: nat, u: nat)
    requires ThreadsInv(w) && t != u && t in w.threads && u in w.threads
    requires Live(w.threads[t].stage) && Live(w.threads[u].stage)
    ensures w.threads[t].contact != w.threads[u].contact
  {
    LiveRuns(w, t);
    LiveRuns(w, u);
  }

  /** No other live thread is of the same contact. */
  ghost predicate Alone(w: World, t: nat) {
    && t in w.threads && w.threads[t].contact in w.slots.running && t < w.slots.nextThread
    && forall u :: u in w.threads && u != t && Live(w.threads[u].stage) ==> w.threads[u].contact != w.threads[t].contact
  }

  lemma IsAlone(w: World, t: nat)
    requires ThreadsInv(w) && t in w.threads && Live(w.threads[t].stage)
    ensures Alone(w, t)
  {
    LiveRuns(w, t);
    forall u | u in w.threads && u != t && Live(w.threads[u].stage)
      ensures w.threads[u].contact != w.threads[t].contact
    {
      OneOwner(w, t, u);
    }
  }

  lemma ScheduledWaits(w: World, k: nat, a: Admission, offer: bool, u: nat)
    requires WaitsUnstarted(w, u) && w.threads[u].contact in w.slots.running && u < w.slots.nextThread
    ensures var out := WithScheduled(w, k, a, offer);
            && WaitsUnstarted(out, u) && out.threads[u] == w.threads[u]
            && Held(out.slots.pending, w.threads[u].contact) == Held(w.slots.pending, w.threads[u].contact)
  {
    if ScheduleOne(w.slots, a, offer).1 == Started {
      assert a.contact != w.threads[u].contact;
    } else {
      assert WithScheduled(w, k, a, offer).threads == w.threads;
    }
  }

  lemma ScheduledUnstarted(w: World, k: nat, a: Admission, offer: bool, u: nat)
    requires u in WithScheduled(w, k, a, offer).unstarted
    ensures var out := WithScheduled(w, k, a, offer);
            if out.unstarted == w.unstarted then u in w.unstarted
            else if u == w.slots.nextThread then out.unstarted[u] == k && WaitsUnstarted(out, u)
            else u in w.unstarted && out.unstarted[u] == w.unstarted[u]
  {
  }

  lemma ScheduledKeepsStarts(w: World, k: nat, a: Admission, offer: bool, calls: set<nat>)
    requires ThreadsInv(w) && StartsInv(w, calls) && k in calls
    ensures StartsInv(WithScheduled(w, k, a, offer), calls)
  {
    var out := WithScheduled(w, k, a, offer);
    forall u | u in out.unstarted ensures WaitsUnstarted(out, u) && out.unstarted[u] in calls {
      ScheduledUnstarted(w, k, a, offer, u);
      if u in w.unstarted {
        assert WaitsUnstarted(w, u);
        LiveRuns(w, u);
        ScheduledWaits(w, k, a, offer, u);
      }
    }
  }

  lemma ScheduledKeepsThreads(w: World, k: nat, a: Admission, offer: bool)
    requires ThreadsInv(w)
    ensures ThreadsInv(WithScheduled(w, k, a, offer))
  {
    if w.slots.claimed < w.slots.limit && a.contact !in w.slots.running {
      StartKeepsThreads(w, k, a);
      assert WithScheduled(w, k, a, offer) == WithScheduled(w, k, a, false);
    } else {
      SameThreads(w, WithScheduled(w, k, a, offer));
    }
  }

  lemma {:induction false} AllScheduledKeepsStarts(w: World, k: nat, admissions: Batch, offers: seq<bool>, calls: set<nat>)
    requires ThreadsInv(w) && StartsInv(w, calls) && k in calls && |offers| == |admissions|
    ensures StartsInv(WithAllScheduled(w, k, admissions, offers), calls)
    decreases |admissions|
  {
    if admissions != [] {
      ScheduledKeepsThreads(w, k, admissions[0], offers[0]);
      ScheduledKeepsStarts(w, k, admissions[0], offers[0], calls);
      AllScheduledKeepsStarts(WithScheduled(w, k, admissions[0], offers[0]), k, admissions[1..], offers[1..], calls);
    }
  }

  /** Only the popping thread takes its contact's pending work, and it was started. */
  lemma PopSparesUnstarted(w: World, t: nat, u: nat)
    requires WaitsUnstarted(w, u) && t in w.threads && u != t && w.threads[t].contact != w.threads[u].contact
    ensures WaitsUnstarted(AfterPop(w, t), u) && AfterPop(w, t).threads[u] == w.threads[u]
    ensures Held(AfterPop(w, t).slots.pending, w.threads[u].contact) == Held(w.slots.pending, w.threads[u].contact)
  {
  }

  lemma DeathSparesUnstarted(w: World, t: nat, u: nat)
    requires WaitsUnstarted(w, u) && t in w.threads && !w.threads[t].stage.AtTop?
    ensures WaitsUnstarted(AfterDeath(w, t), u)
  {
  }

  /** A thread at the top of its run is moved by nothing but its own turn. */
  lemma OthersKeepTheThread(w: World, e: Event, u: nat)
    requires WaitsUnstarted(w, u) && Enabled(w, e)
    requires !e.Pop? && !e.Submit? && !e.Replay? && !Raises(e)
    ensures var out := Step(w, e);
            && u in out.threads && out.threads[u] == w.threads[u]
            && out.slots.threads == w.slots.threads && out.slots.pending == w.slots.pending
  {
  }

  /** A step of another thread, or of no thread, leaves a waiting thread alone. */
  lemma OtherSparesUnstarted(w: World, e: Event, u: nat)
    requires WaitsUnstarted(w, u) && Enabled(w, e)
    requires !e.Pop? && !e.Submit? && !e.Replay?
    ensures WaitsUnstarted(Step(w, e), u)
  {
    if Raises(e) {
      DeathSparesUnstarted(w, e.t, u);
      assert Step(w, e) == AfterDeath(w, e.t);
    } else {
      OthersKeepTheThread(w, e, u);
    }
  }

  lemma PopKeepsStarts(w: World, t: nat)
    requires ThreadsInv(w) && StartsInv(w, w.calls.Keys) && Enabled(w, Pop(t))
    ensures StartsInv(AfterPop(w, t), w.calls.Keys)
  {
    forall u | u in w.unstarted ensures WaitsUnstarted(AfterPop(w, t), u) {
      assert WaitsUnstarted(w, u);
      OneOwner(w, t, u);
      PopSparesUnstarted(w, t, u);
    }
  }

  lemma ReplayKeepsStarts(w: World, e: Event)
    requires ThreadsInv(w) && StartsInv(w, w.calls.Keys) && e.Replay? && Enabled(w, e)
    ensures StartsInv(Step(w, e), Step(w, e).calls.Keys)
  {
    var calls := w.calls.Keys + {e.k};
    AllScheduledKeepsStarts(w, e.k, e.admissions, e.offers, calls);
    var out := WithAllScheduled(w, e.k, e.admissions, e.offers);
    assert Step(w, e).calls.Keys == calls;
    forall u | u in Step(w, e).unstarted ensures WaitsUnstarted(Step(w, e), u) {
      assert WaitsUnstarted(out, u);
    }
  }

  lemma SubmitKeepsStarts(w: World, e: Event)
    requires ThreadsInv(w) && StartsInv(w, w.calls.Keys) && e.Submit? && Enabled(w, e)
    ensures StartsInv(Step(w, e), Step(w, e).calls.Keys)
  {
    ScheduledKeepsStarts(w, e.k, e.a, e.offer, w.calls.Keys);
  }

  lemma OtherKeepsStarts(w: World, e: Event)
    requires StartsInv(w, w.calls.Keys) && Enabled(w, e) && !e.Pop? && !e.Submit? && !e.Replay?
    ensures StartsInv(Step(w, e), Step(w, e).calls.Keys)
  {
    forall u | u in Step(w, e).unstarted ensures WaitsUnstarted(Step(w, e), u) {
      assert WaitsUnstarted(w, u);
      OtherSparesUnstarted(w, e, u);
    }
  }

  lemma SchedulingKeepsStarts(w: World, e: Event)
    requires ThreadsInv(w) && StartsInv(w, w.calls.Keys) && (e.Submit? || e.Replay?) && Enabled(w, e)
    ensures StartsInv(Step(w, e), Step(w, e).calls.Keys)
  {
    if e.Submit? {
      SubmitKeepsStarts(w, e);
    } else {
      ReplayKeepsStarts(w, e);
    }
  }

  lemma StepKeepsStarts(w: World, e: Event)
    requires ThreadsInv(w) && StartsInv(w, w.calls.Keys) && Enabled(w, e)
    ensures StartsInv(Step(w, e), Step(w, e).calls.Keys)
  {
    if e.Submit? || e.Replay? {
      SchedulingKeepsStarts(w, e);
    } else if e.Pop? {
      PopKeepsStarts(w, e.t);
    } else {
      OtherKeepsStarts(w, e);
    }
  }

  lemma {:induction false} RunKeepsStarts(w: World, events: seq<Event>)
    requires WorldInv(w) && StartsInv(w, w.calls.Keys) && ValidRun(w, events)
    ensures WorldInv(After(w, events)) && StartsInv(After(w, events), After(w, events).calls.Keys)
    decreases |events|
  {
    if events != [] {
      StepKeepsStarts(w, events[0]);
      StepKeepsInv(w, events[0]);
      RunKeepsStarts(Step(w, events[0]), events[1..]);
    }
  }

  // ---------------------------------------------------------- abandoned for good

  ghost predicate Given(w: World, k: nat) {
    k in w.calls && w.calls[k] == Abandoned
  }

  lemma {:induction false} AllScheduledKeepsCalls(w: World, k: nat, admissions: Batch, offers: seq<bool>)
    requires |offers| == |admissions|
    ensures WithAllScheduled(w, k, admissions, offers).calls == w.calls
    decreases |admissions|
  {
    if admissions != [] {
      AllScheduledKeepsCalls(WithScheduled(w, k, admissions[0], offers[0]), k, admissions[1..], offers[1..]);
    }
  }

  lemma StepAbandons(w: World, e: Event, k: nat)
    requires Enabled(w, e)
    ensures Given(Step(w, e), k) <==> Given(w, k) || RaisesIn(e, k)
  {
    if e.Replay? {
      AllScheduledKeepsCalls(w, e.k, e.admissions, e.offers);
    }
  }

  lemma {:induction false} AbandonedAlong(w: World, events: seq<Event>, k: nat)
    requires ValidRun(w, events)
    ensures Given(After(w, events), k) <==> Given(w, k) || exists e :: e in events && RaisesIn(e, k)
    decreases |events|
  {
    if events != [] {
      StepAbandons(w, events[0], k);
      AbandonedAlong(Step(w, events[0]), events[1..], k);
      assert forall x :: x in events <==> x == events[0] || x in events[1..];
    }
  }

  /** A registered thread whose call was abandoned, and what it blocks. */
  ghost predicate Stuck(w: World, t: nat, thread: Thread, waiting: Batch) {
    && t in w.unstarted && Given(w, w.unstarted[t])
    && t in w.threads && w.threads[t] == thread && thread.contact in w.slots.running
    && Held(w.slots.pending, thread.contact) == waiting
  }

  lemma ScheduledKeepsStuck(w: World, k: nat, a: Admission, offer: bool, t: nat, thread: Thread, waiting: Batch)
    requires Stuck(w, t, thread, waiting) && t < w.slots.nextThread
    ensures Stuck(WithScheduled(w, k, a, offer), t, thread, waiting)
  {
  }

  lemma {:induction false} AllScheduledKeepsStuck(w: World, k: nat, admissions: Batch, offers: seq<bool>,
                                                  t: nat, thread: Thread, waiting: Batch)
    requires Stuck(w, t, thread, waiting) && t < w.slots.nextThread && |offers| == |admissions|
    ensures Stuck(WithAllScheduled(w, k, admissions, offers), t, thread, waiting)
    decreases |admissions|
  {
    if admissions != [] {
      ScheduledKeepsStuck(w, k, admissions[0], offers[0], t, thread, waiting);
      AllScheduledKeepsStuck(WithScheduled(w, k, admissions[0], offers[0]), k, admissions[1..], offers[1..],
                             t, thread, waiting);
    }
  }

  lemma ReplayKeepsStuck(w: World, e: Event, t: nat, thread: Thread, waiting: Batch)
    requires e.Replay? && Enabled(w, e) && Stuck(w, t, thread, waiting) && t < w.slots.nextThread
    ensures Stuck(Step(w, e), t, thread, waiting)
  {
    AllScheduledKeepsStuck(w, e.k, e.admissions, e.offers, t, thread, waiting);
    AllScheduledKeepsCalls(w, e.k, e.admissions, e.offers);
  }

  lemma PopKeepsStuck(w: World, u: nat, t: nat, thread: Thread, waiting: Batch)
    requires Enabled(w, Pop(u)) && Stuck(w, t, thread, waiting) && WaitsUnstarted(w, t) && Alone(w, t)
    ensures Stuck(AfterPop(w, u), t, thread, waiting)
  {
    PopSparesUnstarted(w, u, t);
  }

  /** Only a contact's own thread gives the contact up. */
  lemma DeathKeepsStuck(w: World, u: nat, t: nat, thread: Thread, waiting: Batch)
    requires u in w.threads && !w.threads[u].stage.AtTop?
    requires Stuck(w, t, thread, waiting) && WaitsUnstarted(w, t) && Alone(w, t)
    ensures Stuck(AfterDeath(w, u), t, thread, waiting)
  {
  }

  lemma QuietKeepsStuck(w: World, e: Event, t: nat, thread: Thread, waiting: Batch)
    requires Enabled(w, e) && Stuck(w, t, thread, waiting) && WaitsUnstarted(w, t)
    requires !e.Submit? && !e.Replay? && !e.Pop? && !Raises(e)
    ensures Stuck(Step(w, e), t, thread, waiting)
  {
  }

  lemma StepKeepsStuck(w: World, e: Event, t: nat, thread: Thread, waiting: Batch)
    requires Enabled(w, e) && Stuck(w, t, thread, waiting) && WaitsUnstarted(w, t) && Alone(w, t)
    ensures Stuck(Step(w, e), t, thread, waiting)
  {
    if e.Submit? {
      ScheduledKeepsStuck(w, e.k, e.a, e.offer, t, thread, waiting);
    } else if e.Replay? {
      ReplayKeepsStuck(w, e, t, thread, waiting);
    } else if e.Pop? {
      PopKeepsStuck(w, e.t, t, thread, waiting);
    } else if Raises(e) {
      DeathKeepsStuck(w, e.t, t, thread, waiting);
      assert Step(w, e) == AfterDeath(w, e.t);
    } else {
      QuietKeepsStuck(w, e, t, thread, waiting);
    }
  }

  lemma {:induction false} StuckAlong(w: World, events: seq<Event>, t: nat, thread: Thread, waiting: Batch)
    requires WorldInv(w) && StartsInv(w, w.calls.Keys) && ValidRun(w, events) && Stuck(w, t, thread, waiting)
    ensures Stuck(After(w, events), t, thread, waiting)
    decreases |events|
  {
    if events != [] {
      assert WaitsUnstarted(w, t);
      IsAlone(w, t);
      StepKeepsStuck(w, events[0], t, thread, waiting);
      StepKeepsStarts(w, events[0]);
      StepKeepsInv(w, events[0]);
      StuckAlong(Step(w, events[0]), events[1..], t, thread, waiting);
    }
  }

  /** From any world in which its call was not abandoned, the thread can be started. */
  lemma CanStillStart(w: World, t: nat) returns (more: seq<Event>)
    requires StartsInv(w, w.calls.Keys) && t in w.unstarted && !Given(w, w.unstarted[t])
    ensures ValidRun(w, more) && t !in After(w, more).unstarted
  {
    var k := w.unstarted[t];
    if w.calls[k] == Collecting {
      var closed := Step(w, CloseSubmit(k));
      more := [CloseSubmit(k), Start(t)];
      assert more[1..] == [Start(t)] && [Start(t)][1..] == [];
      assert ValidRun(closed, [Start(t)]);
      assert After(w, more) == After(closed, [Start(t)]) == After(Step(closed, Start(t)), []);
    } else {
      more := [Start(t)];
      assert more[1..] == [];
      assert After(w, more) == After(Step(w, Start(t)), []);
    }
  }

  lemma UnstartedFromIdle(limit: nat, events: seq<Event>)
    requires ValidRun(Idle(limit), events)
    ensures var w := After(Idle(limit), events); WorldInv(w) && StartsInv(w, w.calls.Keys)
  {
    IdleInv(limit);
    RunKeepsStarts(Idle(limit), events);
  }

  ghost predicate NeverStarts(w: World, t: nat) {
    forall more :: ValidRun(w, more) ==> t in After(w, more).unstarted
  }

  /** A registered thread is never started if and only if a later contact of the very
      `submit` that registered it raised. */
  lemma NeverStartedExactlyWhenSubmitRaised(limit: nat, events: seq<Event>, t: nat)
    requires ValidRun(Idle(limit), events) && t in After(Idle(limit), events).unstarted
    ensures var w := After(Idle(limit), events);
            NeverStarts(w, t) <==> exists e :: e in events && RaisesIn(e, w.unstarted[t])
  {
    var w := After(Idle(limit), events);
    UnstartedFromIdle(limit, events);
    AbandonedAlong(Idle(limit), events, w.unstarted[t]);
    if Given(w, w.unstarted[t]) {
      assert WaitsUnstarted(w, t);
      forall more | ValidRun(w, more) ensures t in After(w, more).unstarted {
        StuckAlong(w, more, t, w.threads[t], Held(w.slots.pending, w.threads[t].contact));
      }
    } else {
      var more := CanStillStart(w, t);
    }
  }

  /** What such a thread costs for as long as the process lives: its contact stays busy,
      so nothing for it is replayed, its work keeps its slots, and the dispatcher is
      never idle again. */
  lemma AbandonedContactIsLost(limit: nat, events: seq<Event>, t: nat, more: seq<Event>)
    requires ValidRun(Idle(limit), events) && t in After(Idle(limit), events).unstarted
    requires exists e :: e in events && RaisesIn(e, After(Idle(limit), events).unstarted[t])
    requires ValidRun(After(Idle(limit), events), more)
    ensures var w, later := After(Idle(limit), events), After(After(Idle(limit), events), more);
            && t in w.threads && w.threads[t].contact in later.slots.running
            && Held(later.slots.pending, w.threads[t].contact) == Held(w.slots.pending, w.threads[t].contact) != []
            && later.slots.claimed > 0
  {
    var w := After(Idle(limit), events);
    UnstartedFromIdle(limit, events);
    AbandonedAlong(Idle(limit), events, w.unstarted[t]);
    assert WaitsUnstarted(w, t);
    StuckAlong(w, more, t, w.threads[t], Held(w.slots.pending, w.threads[t].contact));
    RunKeepsInv(w, more);
    WaitingIsCounted(After(w, more), w.threads[t].contact);
  }

  lemma WaitingIsCounted(w: World, contact: string)
    requires WorldInv(w) && Held(w.slots.pending, contact) != []
    ensures w.slots.claimed > 0
  {
    assert PendingAccounted(w, contact);
    assert Held(w.slots.pending, contact)[0].token in w.owner;
  }

  /** The smallest case: two contacts are submitted and the call for the second raises. */
  lemma SecondContactRaises(limit: nat)
    requires limit > 0
    ensures var events := [OpenSubmit(0), Submit(0, Admission(0, "a", false), false), SubmitRaises(0)];
            && ValidRun(Idle(limit), events)
            && 0 in After(Idle(limit), events).unstarted
            && NeverStarts(After(Idle(limit), events), 0)
  {
    var a := Admission(0, "a", false);
    var events := [OpenSubmit(0), Submit(0, a, false), SubmitRaises(0)];
    var w0 := Idle(limit);
    var w1 := Step(w0, OpenSubmit(0));
    var w2 := Step(w1, Submit(0, a, false));
    var w3 := Step(w2, SubmitRaises(0));
    assert events[1..] == [Submit(0, a, false), SubmitRaises(0)];
    assert [Submit(0, a, false), SubmitRaises(0)][1..] == [SubmitRaises(0)] && [SubmitRaises(0)][1..] == [];
    assert ValidRun(w2, [SubmitRaises(0)]) && ValidRun(w1, events[1..]);
    assert After(w0, events) == After(w1, events[1..]) == After(w2, [SubmitRaises(0)]) == After(w3, []) == w3;
    assert events[2] in events;
    NeverStartedExactlyWhenSubmitRaised(limit, events, 0);
  }

  // ------------------------------------------------- injected work without a thread

  /** Injected messages of a contact that no thread of its own will take. */
  ghost predicate Orphaned(w: World, contact: string) {
    Held(w.slots.injected, contact) != [] && contact !in w.slots.running
  }

  /** A call raises out of the contact's own turn while messages are injected in it. */
  ghost predicate Kills(w: World, e: Event, contact: string) {
    && Raises(e) && e.t in w.threads && Live(w.threads[e.t].stage) && w.threads[e.t].contact == contact
    && Held(w.slots.injected, contact) != []
  }

  ghost predicate Registers(w: World, e: Event, contact: string)
    requires Enabled(w, e)
  {
    contact !in w.slots.running && contact in Step(w, e).slots.running
  }

  lemma ScheduledOrphans(w: World, k: nat, a: Admission, offer: bool, contact: string)
    ensures var out := WithScheduled(w, k, a, offer);
            && w.slots.running <= out.slots.running
            && (contact !in out.slots.running ==> Held(out.slots.injected, contact) == Held(w.slots.injected, contact))
  {
  }

  lemma {:induction false} AllScheduledOrphans(w: World, k: nat, admissions: Batch, offers: seq<bool>, contact: string)
    requires |offers| == |admissions|
    ensures var out := WithAllScheduled(w, k, admissions, offers);
            && w.slots.running <= out.slots.running
            && (contact !in out.slots.running ==> Held(out.slots.injected, contact) == Held(w.slots.injected, contact))
    decreases |admissions|
  {
    if admissions != [] {
      ScheduledOrphans(w, k, admissions[0], offers[0], contact);
      AllScheduledOrphans(WithScheduled(w, k, admissions[0], offers[0]), k, admissions[1..], offers[1..], contact);
    }
  }

  lemma DeathOrphans(w: World, t: nat, contact: string)
    requires ThreadsInv(w) && t in w.threads
    ensures var out := AfterDeath(w, t);
            && out.slots.injected == w.slots.injected
            && (contact in out.slots.running <==>
                  contact in w.slots.running && !(Live(w.threads[t].stage) && w.threads[t].contact == contact))
  {
  }

  lemma PopOrphans(w: World, t: nat, contact: string)
    requires t in w.threads && w.threads[t].contact in w.slots.running
    ensures var out := AfterPop(w, t);
            && (Orphaned(out, contact) <==> Orphaned(w, contact))
            && out.slots.running <= w.slots.running
  {
    var c := w.threads[t].contact;
    SplitLosesNothing(Held(w.slots.pending, c));
    if Held(w.slots.pending, c) != [] {
      assert AfterPop(w, t).slots == w.slots.(pending := w.slots.pending - {c});
    } else {
      assert AfterPop(w, t).slots.injected == w.slots.injected - {c};
    }
  }

  lemma TakeOrphans(w: World, t: nat, contact: string)
    requires Enabled(w, TakeInjected(t)) && w.threads[t].contact in w.slots.running
    ensures Orphaned(Step(w, TakeInjected(t)), contact) <==> Orphaned(w, contact)
    ensures Step(w, TakeInjected(t)).slots.running == w.slots.running
  {
  }

  lemma QuietOrphans(w: World, e: Event)
    requires Enabled(w, e) && !e.Submit? && !e.Replay? && !e.Pop? && !e.TakeInjected? && !Raises(e)
    ensures Step(w, e).slots.injected == w.slots.injected && Step(w, e).slots.running == w.slots.running
  {
  }

  /** Exactly when a step leaves a contact's injected messages without a thread. */
  lemma StepOrphans(w: World, e: Event, contact: string)
    requires ThreadsInv(w) && Enabled(w, e)
    ensures Orphaned(Step(w, e), contact)
            <==> (Orphaned(w, contact) && !Registers(w, e, contact)) || Kills(w, e, contact)
  {
    if e.Submit? {
      ScheduledOrphans(w, e.k, e.a, e.offer, contact);
    } else if e.Replay? {
      AllScheduledOrphans(w, e.k, e.admissions, e.offers, contact);
    } else if e.Pop? {
      LiveRuns(w, e.t);
      PopOrphans(w, e.t, contact);
    } else if e.TakeInjected? {
      LiveRuns(w, e.t);
      TakeOrphans(w, e.t, contact);
    } else if Raises(e) {
      RaisedOrphans(w, e, contact);
    } else {
      QuietOrphans(w, e);
    }
  }

  lemma RaisedOrphans(w: World, e: Event, contact: string)
    requires ThreadsInv(w) && Raises(e) && Enabled(w, e)
    ensures Orphaned(Step(w, e), contact)
            <==> (Orphaned(w, contact) && !Registers(w, e, contact)) || Kills(w, e, contact)
  {
    DeathOrphans(w, e.t, contact);
    if Live(w.threads[e.t].stage) {
      LiveRuns(w, e.t);
    }
    assert Step(w, e) == AfterDeath(w, e.t);
  }

  ghost predicate NeverRegisters(w: World, events: seq<Event>, contact: string)
    requires ValidRun(w, events)
    decreases |events|
  {
    events == []
    || (!Registers(w, events[0], contact) && NeverRegisters(Step(w, events[0]), events[1..], contact))
  }

  /** Somewhere a call raised out of the contact's turn with messages injected in it,
      and no thread was registered for the contact after that. */
  ghost predicate LosesInjected(w: World, events: seq<Event>, contact: string)
    requires ValidRun(w, events)
    decreases |events|
  {
    events != []
    && ((Kills(w, events[0], contact) && NeverRegisters(Step(w, events[0]), events[1..], contact))
        || LosesInjected(Step(w, events[0]), events[1..], contact))
  }

  lemma {:induction false} OrphansAlong(w: World, events: seq<Event>, contact: string)
    requires WorldInv(w) && ValidRun(w, events)
    ensures Orphaned(After(w, events), contact)
            <==> (Orphaned(w, contact) && NeverRegisters(w, events, contact)) || LosesInjected(w, events, contact)
    decreases |events|
  {
    if events != [] {
      StepOrphans(w, events[0], contact);
      StepKeepsInv(w, events[0]);
      OrphansAlong(Step(w, events[0]), events[1..], contact);
    }
  }

  /** Injected messages of a contact have exactly one thread of that contact to take
      them, unless and only unless a call raised out of the turn they were put into
      and no thread was registered for the contact since. */
  lemma InjectedWorkHasAThread(limit: nat, events: seq<Event>, contact: string)
    requires ValidRun(Idle(limit), events) && Held(After(Idle(limit), events).slots.injected, contact) != []
    ensures |LiveThreads(After(Idle(limit), events), contact)| == 1
            <==> !LosesInjected(Idle(limit), events, contact)
  {
    IdleInv(limit);
    OrphansAlong(Idle(limit), events, contact);
    OneThreadPerContact(limit, events, contact);
  }

  lemma {:induction false} RunSnoc(w: World, events: seq<Event>, e: Event)
    requires ValidRun(w, events) && Enabled(After(w, events), e)
    ensures ValidRun(w, events + [e]) && After(w, events + [e]) == Step(After(w, events), e)
    decreases |events|
  {
    if events == [] {
      assert [] + [e] == [e] && [e][1..] == [];
      assert After(w, [e]) == After(Step(w, e), []);
    } else {
      assert (events + [e])[1..] == events[1..] + [e];
      RunSnoc(Step(w, events[0]), events[1..], e);
    }
  }

  /** The turn of contact "a", submitted alone, stands before its retry. */
  ghost predicate AboutToRetry(w: World, limit: nat, a: Admission) {
    && w.threads == map[0 := Thread("a", Settling([a], [], false))]
    && w.slots == Slots(map[], map[], {"a"}, map[0 := "a"], 1, limit, false, 1)
    && w.owner == map[a.token := InHand(0)] && w.settled == map[] && w.calls == map[0 := Starting]
  }

  ghost predicate WaitingTurn(w: World, limit: nat, a: Admission) {
    && w.threads == map[0 := Thread("a", AtTop)]
    && w.slots == Slots(map["a" := [a]], map[], {"a"}, map[0 := "a"], 1, limit, false, 1)
    && w.owner == map[a.token := InPending("a")] && w.settled == map[]
  }

  lemma SubmittedAlone(limit: nat, a: Admission)
    requires limit > 1 && a.contact == "a"
    ensures Enabled(Idle(limit), OpenSubmit(0))
    ensures var w1 := Step(Idle(limit), OpenSubmit(0));
            && Enabled(w1, Submit(0, a, false))
            && var w2 := Step(w1, Submit(0, a, false));
            && WaitingTurn(w2, limit, a) && w2.calls == map[0 := Collecting] && w2.unstarted == map[0 := 0]
  {
    var w1 := Step(Idle(limit), OpenSubmit(0));
    var w2 := Step(w1, Submit(0, a, false));
    assert Held(w1.slots.pending, "a") + [a] == [a];
    assert w2.slots.running == {"a"};
  }

  lemma StartedAlone(w: World, limit: nat, a: Admission)
    requires WaitingTurn(w, limit, a) && w.calls == map[0 := Collecting] && w.unstarted == map[0 := 0]
    ensures Enabled(w, CloseSubmit(0)) && Enabled(Step(w, CloseSubmit(0)), Start(0))
    ensures var w2 := Step(Step(w, CloseSubmit(0)), Start(0));
            WaitingTurn(w2, limit, a) && w2.calls == map[0 := Starting] && w2.unstarted == map[]
  {
  }

  lemma PoppedAlone(w: World, limit: nat, a: Admission)
    requires WaitingTurn(w, limit, a) && w.unstarted == map[] && !a.review
    ensures Enabled(w, Pop(0))
    ensures var w1 := Step(w, Pop(0));
            && w1.threads == map[0 := Thread("a", Running([a], []))]
            && w1.slots == w.slots.(pending := map[]) && w1.owner == map[a.token := InHand(0)]
            && w1.settled == w.settled && w1.calls == w.calls
  {
    assert Split([a]) == [[a]];
    assert Tokens([a]) == {a.token} by { assert a in [a]; }
    assert w.slots.pending - {"a"} == map[];
  }

  lemma FailedAlone(w: World, limit: nat, a: Admission)
    requires w.threads == map[0 := Thread("a", Running([a], []))] && w.owner == map[a.token := InHand(0)]
    requires w.slots == Slots(map[], map[], {"a"}, map[0 := "a"], 1, limit, false, 1)
    requires w.settled == map[] && w.calls == map[0 := Starting]
    ensures Enabled(w, RunnerReturns(0, false)) && Enabled(Step(w, RunnerReturns(0, false)), TakeInjected(0))
    ensures AboutToRetry(Step(Step(w, RunnerReturns(0, false)), TakeInjected(0)), limit, a)
  {
    var w1 := Step(w, RunnerReturns(0, false));
    assert w1.threads[0] == Thread("a", Finished([a], [], false));
    assert [a] + [] == [a] && w1.slots.injected - {"a"} == map[];
    assert Tokens([]) == {} && Assign(w.owner, [], InHand(0)) == w.owner;
  }

  /** A run that takes one contact's turn to the point of being retried. */
  lemma FailedTurn(limit: nat, a: Admission) returns (events: seq<Event>)
    requires limit > 1 && a.contact == "a" && !a.review
    ensures ValidRun(Idle(limit), events) && AboutToRetry(After(Idle(limit), events), limit, a)
  {
    SubmittedAlone(limit, a);
    events := [];
    events := Extended(limit, events, OpenSubmit(0));
    events := Extended(limit, events, Submit(0, a, false));
    StartedAlone(After(Idle(limit), events), limit, a);
    events := Extended(limit, events, CloseSubmit(0));
    events := Extended(limit, events, Start(0));
    PoppedAlone(After(Idle(limit), events), limit, a);
    events := Extended(limit, events, Pop(0));
    FailedAlone(After(Idle(limit), events), limit, a);
    events := Extended(limit, events, RunnerReturns(0, false));
    events := Extended(limit, events, TakeInjected(0));
  }

  lemma Extended(limit: nat, events: seq<Event>, e: Event) returns (longer: seq<Event>)
    requires ValidRun(Idle(limit), events) && Enabled(After(Idle(limit), events), e)
    ensures ValidRun(Idle(limit), longer) && After(Idle(limit), longer) == Step(After(Idle(limit), events), e)
  {
    RunSnoc(Idle(limit), events, e);
    longer := events + [e];
  }

  /** A message put into a turn between its end and its retry, which raises, is left
      without a thread.  The turn's own runner has returned by then: only another live run
      of the contact, or a runner that registers otherwise, accepts such an offer. */
  lemma InjectedBeforeRetryRaises(limit: nat, a: Admission, b: Admission) returns (events: seq<Event>)
    requires limit > 1 && a.contact == b.contact == "a" && !a.review && a.token != b.token
    ensures ValidRun(Idle(limit), events) && Orphaned(After(Idle(limit), events), "a")
  {
    events := FailedTurn(limit, a);
    events := Extended(limit, events, OpenSubmit(1));
    events := Extended(limit, events, Submit(1, b, true));
    assert After(Idle(limit), events).slots.injected["a"] == [b];
    events := Extended(limit, events, RetryRaises(0));
  }
}
