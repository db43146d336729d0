/** What holds in every interleaving of the dispatcher, and exactly when it leaks. */
module DispatcherRuns {
  import opened Common
  import opened DispatcherModel
  import opened DispatcherInvariant
  import opened DispatcherSteps
  import opened DispatcherTheorem

  function Idle(limit: nat): World {
    World(NoWork(limit), map[], map[], map[], false, map[], map[])
  }

  ghost predicate ValidRun(w: World, events: seq<Event>)
    decreases |events|
  {
    events == [] || (Enabled(w, events[0]) && ValidRun(Step(w, events[0]), events[1..]))
  }

  ghost function After(w: World, events: seq<Event>): World
    requires ValidRun(w, events)
    decreases |events|
  {
    if events == [] then w else After(Step(w, events[0]), events[1..])
  }

  lemma IdleInv(limit: nat)
    ensures WorldInv(Idle(limit))
  {
  }

  lemma {:induction false} RunKeepsInv(w: World, events: seq<Event>)
    requires WorldInv(w) && ValidRun(w, events)
    ensures WorldInv(After(w, events))
    decreases |events|
  {
    if events != [] {
      StepKeepsInv(w, events[0]);
      RunKeepsInv(Step(w, events[0]), events[1..]);
    }
  }

  // -------------------------------------------------------------- conservation

  ghost function ListTokens(m: map<string, Batch>): set<nat> {
    set c, a | c in m && a in m[c] :: a.token
  }

  ghost function HandTokens(w: World): set<nat> {
    set t, a | t in w.threads && a in Hands(w.threads[t].stage) :: a.token
  }

  ghost function LeakedTokens(w: World): set<nat> {
    set token | token in w.owner && w.owner[token].Leaked?
  }

  ghost function OwnedIn(owner: map<nat, Place>, where: Place -> bool): set<nat> {
    set token | token in owner && where(owner[token])
  }

  lemma PendingIsOwned(w: World)
    requires PendingInv(w)
    ensures ListTokens(w.slots.pending) == OwnedIn(w.owner, (p: Place) => p.InPending?)
  {
    forall token | token in ListTokens(w.slots.pending)
      ensures token in w.owner && w.owner[token].InPending?
    {
      var c, a :| c in w.slots.pending && a in w.slots.pending[c] && a.token == token;
      assert PendingAccounted(w, c);
    }
    forall token | token in w.owner && w.owner[token].InPending? ensures token in ListTokens(w.slots.pending) {
      assert PendingAccounted(w, w.owner[token].contact);
    }
  }

  lemma InjectedIsOwned(w: World)
    requires InjectedInv(w)
    ensures ListTokens(w.slots.injected) == OwnedIn(w.owner, (p: Place) => p.InInjected?)
  {
    forall token | token in ListTokens(w.slots.injected)
      ensures token in w.owner && w.owner[token].InInjected?
    {
      var c, a :| c in w.slots.injected && a in w.slots.injected[c] && a.token == token;
      assert InjectedAccounted(w, c);
    }
    forall token | token in w.owner && w.owner[token].InInjected? ensures token in ListTokens(w.slots.injected) {
      assert InjectedAccounted(w, w.owner[token].contact);
    }
  }

  lemma HandsAreOwned(w: World)
    requires HandsInv(w)
    ensures HandTokens(w) == OwnedIn(w.owner, (p: Place) => p.InHand?)
  {
    forall token | token in HandTokens(w) ensures token in w.owner && w.owner[token].InHand? {
      var t, a :| t in w.threads && a in Hands(w.threads[t].stage) && a.token == token;
      assert HandAccounted(w, t);
    }
    forall token | token in w.owner && w.owner[token].InHand? ensures token in HandTokens(w) {
      assert HandAccounted(w, w.owner[token].thread);
    }
  }

  lemma OwnersPartition(owner: map<nat, Place>)
    ensures |owner| ==
      |OwnedIn(owner, (p: Place) => p.InPending?)| + |OwnedIn(owner, (p: Place) => p.InInjected?)|
      + |OwnedIn(owner, (p: Place) => p.InHand?)| + |OwnedIn(owner, (p: Place) => p.Leaked?)|
  {
    var p := OwnedIn(owner, (p: Place) => p.InPending?);
    var i := OwnedIn(owner, (p: Place) => p.InInjected?);
    var h := OwnedIn(owner, (p: Place) => p.InHand?);
    var l := OwnedIn(owner, (p: Place) => p.Leaked?);
    assert owner.Keys == ((p + i) + h) + l;
    CardinalityOf(owner);
  }

  /** `_claimed_roots` counts exactly the admissions held in `_pending`, `_injected`,
      and threads' hands, plus those a raising coordinator lost; it never passes
      the limit, and no admission is in two of these places. */
  lemma DispatcherConservation(limit: nat, events: seq<Event>)
    requires ValidRun(Idle(limit), events)
    ensures var w := After(Idle(limit), events);
            && w.slots.claimed ==
               |ListTokens(w.slots.pending)| + |ListTokens(w.slots.injected)| + |HandTokens(w)| + |LeakedTokens(w)|
            && w.slots.claimed <= w.slots.limit
            && ListTokens(w.slots.pending) !! ListTokens(w.slots.injected)
            && ListTokens(w.slots.pending) !! HandTokens(w)
            && ListTokens(w.slots.injected) !! HandTokens(w)
  {
    IdleInv(limit);
    RunKeepsInv(Idle(limit), events);
    var w := After(Idle(limit), events);
    PendingIsOwned(w);
    InjectedIsOwned(w);
    HandsAreOwned(w);
    OwnersPartition(w.owner);
    assert LeakedTokens(w) == OwnedIn(w.owner, (p: Place) => p.Leaked?);
  }

  // ---------------------------------------------------------- when slots leak

  predicate Worked(stage: Stage) {
    && ((stage.Running? || stage.Finished?) ==> stage.batch != [])
    && (stage.Settling? || stage.Stranded? ==> stage.settled != [])
    && ((stage.Running? || stage.Finished? || stage.Settling? || stage.Releasing? || stage.Replaying?) ==>
          forall b :: b in stage.rest ==> b != [])
  }

  ghost predicate WorkInv(w: World) {
    forall t :: t in w.threads ==> Worked(w.threads[t].stage)
  }

  /** The calls that raise out of a thread, and those of them that cost slots: with
      roots to retry, stranded roots, or batches still to run in hand. */
  predicate Raises(e: Event) {
    e.RetryRaises? || e.ReplayRaises? || e.StrandedRaises?
  }

  predicate Leaks(w: World, e: Event) {
    || e.RetryRaises? || e.StrandedRaises?
    || (e.ReplayRaises? && e.t in w.threads && w.threads[e.t].stage.Replaying? && w.threads[e.t].stage.rest != [])
  }

  /** Somewhere along the run a leaking call raises. */
  ghost predicate LeakingRun(w: World, events: seq<Event>)
    requires ValidRun(w, events)
    decreases |events|
  {
    events != [] && (Leaks(w, events[0]) || LeakingRun(Step(w, events[0]), events[1..]))
  }

  lemma {:induction false} AllScheduledWork(w: World, k: nat, admissions: Batch, offers: seq<bool>)
    requires WorkInv(w) && |offers| == |admissions| && DistinctTokens(admissions)
    requires forall a :: a in admissions ==> Unissued(w, a.token)
    ensures WorkInv(WithAllScheduled(w, k, admissions, offers))
    ensures LeakedTokens(WithAllScheduled(w, k, admissions, offers)) == LeakedTokens(w)
    ensures WithAllScheduled(w, k, admissions, offers).aborted == w.aborted
    decreases |admissions|
  {
    if admissions != [] {
      var a, rest := admissions[0], admissions[1..];
      ScheduledWork(w, k, a, offers[0]);
      assert forall i :: 0 <= i < |rest| ==> rest[i] == admissions[i + 1];
      forall b | b in rest ensures Unissued(WithScheduled(w, k, a, offers[0]), b.token) {
        assert b in admissions;
        ScheduledIssuesOne(w, k, a, offers[0], b.token);
      }
      AllScheduledWork(WithScheduled(w, k, a, offers[0]), k, rest, offers[1..]);
    }
  }

  lemma ScheduledWork(w: World, k: nat, a: Admission, offer: bool)
    requires WorkInv(w) && Unissued(w, a.token)
    ensures WorkInv(WithScheduled(w, k, a, offer))
    ensures LeakedTokens(WithScheduled(w, k, a, offer)) == LeakedTokens(w)
    ensures WithScheduled(w, k, a, offer).aborted == w.aborted
  {
    assert LeakedTokens(WithScheduled(w, k, a, offer)) == LeakedTokens(w);
  }

  lemma LeakedIgnoresMoves(w: World, out: World, moved: Batch, place: Place)
    requires Tokens(moved) <= w.owner.Keys && out.owner == Assign(w.owner, moved, place)
    requires forall token :: token in Tokens(moved) ==> !w.owner[token].Leaked?
    requires !place.Leaked?
    ensures LeakedTokens(out) == LeakedTokens(w)
  {
    AssignMoves(w.owner, moved, place);
  }

  lemma PopMoves(w: World, t: nat) returns (moved: Batch)
    requires PendingInv(w) && InjectedInv(w) && t in w.threads
    ensures Tokens(moved) <= w.owner.Keys && AfterPop(w, t).owner == Assign(w.owner, moved, InHand(t))
    ensures forall token :: token in Tokens(moved) ==> !w.owner[token].Leaked?
  {
    var c := w.threads[t].contact;
    assert PendingAccounted(w, c) && InjectedAccounted(w, c);
    moved := if Held(w.slots.pending, c) != [] then Held(w.slots.pending, c) else Held(w.slots.injected, c);
    SplitLosesNothing(moved);
  }

  lemma MovedWork(w: World, out: World, t: nat, stage: Stage)
    requires WorkInv(w) && t in w.threads && Worked(stage)
    requires out.threads == w.threads[t := w.threads[t].(stage := stage)]
    ensures WorkInv(out)
  {
  }

  lemma PopWork(w: World, t: nat)
    requires WorkInv(w) && t in w.threads
    ensures WorkInv(AfterPop(w, t))
  {
    var held := Held(w.slots.pending, w.threads[t].contact);
    var batches: seq<Batch> := Split(held);
    SplitLosesNothing(held);
    if held != [] {
      assert batches[0] in batches;
      assert forall b :: b in batches[1..] ==> b in batches;
      MovedWork(w, AfterPop(w, t), t, Running(batches[0], batches[1..]));
    } else {
      var stranded := Held(w.slots.injected, w.threads[t].contact);
      MovedWork(w, AfterPop(w, t), t, if stranded == [] then LastReplay else Stranded(stranded));
    }
  }

  lemma PopLeaks(w: World, t: nat)
    requires PendingInv(w) && InjectedInv(w) && t in w.threads
    ensures LeakedTokens(AfterPop(w, t)) == LeakedTokens(w) && AfterPop(w, t).aborted == w.aborted
  {
    var moved := PopMoves(w, t);
    LeakedIgnoresMoves(w, AfterPop(w, t), moved, InHand(t));
  }

  lemma TakeLeaks(w: World, t: nat)
    requires InjectedInv(w) && Enabled(w, TakeInjected(t))
    ensures LeakedTokens(Step(w, TakeInjected(t))) == LeakedTokens(w)
  {
    var c := w.threads[t].contact;
    assert InjectedAccounted(w, c);
    LeakedIgnoresMoves(w, Step(w, TakeInjected(t)), Held(w.slots.injected, c), InHand(t));
  }

  lemma TakeWork(w: World, t: nat)
    requires WorkInv(w) && Enabled(w, TakeInjected(t))
    ensures WorkInv(Step(w, TakeInjected(t)))
  {
  }

  lemma {:induction false} FlattenedSomething(rest: seq<Batch>)
    requires forall b :: b in rest ==> b != []
    ensures rest == [] <==> Flatten(rest) == []
  {
    assert rest != [] ==> rest[0] in rest;
  }

  lemma DeathLeaks(w: World, t: nat)
    requires HandsInv(w) && t in w.threads
    ensures LeakedTokens(AfterDeath(w, t)) == LeakedTokens(w) + Tokens(Hands(w.threads[t].stage))
  {
    assert HandAccounted(w, t);
    AssignMoves(w.owner, Hands(w.threads[t].stage), Leaked);
  }

  lemma DeathWork(w: World, t: nat, e: Event)
    requires WorkInv(w) && HandsInv(w) && Raises(e) && e.t == t && Enabled(w, e)
    ensures WorkInv(Step(w, e)) && Step(w, e).aborted
    ensures LeakedTokens(Step(w, e)) != {} <==> LeakedTokens(w) != {} || Leaks(w, e)
  {
    var hands := Hands(w.threads[t].stage);
    DeathLeaks(w, t);
    if e.ReplayRaises? {
      FlattenedSomething(w.threads[t].stage.rest);
    }
    assert Step(w, e) == AfterDeath(w, t);
    assert hands != [] ==> hands[0] in hands && hands[0].token in Tokens(hands);
    assert hands == [] ==> Tokens(hands) == {};
  }

  lemma ReleaseWork(w: World, t: nat, gone: Batch, next: Stage)
    requires WorkInv(w) && HandsInv(w) && t in w.threads && Worked(next)
    requires forall a :: a in gone ==> a in Hands(w.threads[t].stage)
    ensures WorkInv(AfterRelease(w, t, gone, next))
    ensures LeakedTokens(AfterRelease(w, t, gone, next)) == LeakedTokens(w)
  {
    assert HandAccounted(w, t);
  }

  lemma OtherWork(w: World, e: Event)
    requires WorkInv(w) && Enabled(w, e)
    requires e.RunnerReturns? || e.CompleteRaises? || e.ReplayDone? || e.Settle? || e.CompleteStranded? || e.Exit?
             || e.Shutdown? || e.DeferRaises? || CallOnly(e)
    ensures WorkInv(Step(w, e))
    ensures LeakedTokens(Step(w, e)) == LeakedTokens(w) && Step(w, e).aborted == w.aborted
  {
    assert Step(w, e).owner == w.owner;
    if e.ReplayDone? {
      var rest := w.threads[e.t].stage.rest;
      assert rest != [] ==> rest[0] in rest;
      assert forall b :: rest != [] && b in rest[1..] ==> b in rest;
    }
  }

  /** What a step does to the work in hand and to the leaked admissions. */
  ghost predicate WorkStep(w: World, e: Event, t: World) {
    && WorkInv(t)
    && (LeakedTokens(t) != {} <==> LeakedTokens(w) != {} || Leaks(w, e))
    && (t.aborted <==> w.aborted || Raises(e))
  }

  lemma TurnWork(w: World, t: nat, e: Event)
    requires PendingInv(w) && InjectedInv(w) && WorkInv(w) && (e.Pop? || e.TakeInjected?) && e.t == t && Enabled(w, e)
    ensures WorkStep(w, e, Step(w, e))
  {
    if e.Pop? {
      PopWork(w, t);
      PopLeaks(w, t);
    } else {
      TakeWork(w, t);
      TakeLeaks(w, t);
    }
  }

  lemma ReleasesWork(w: World, t: nat, e: Event)
    requires HandsInv(w) && WorkInv(w) && (e.Release? || e.ReleaseStranded?) && e.t == t && Enabled(w, e)
    ensures WorkStep(w, e, Step(w, e))
  {
    var stage := w.threads[t].stage;
    if e.Release? {
      assert Worked(stage);
      ReleaseWork(w, t, stage.settled, Replaying(stage.rest));
    } else {
      ReleaseWork(w, t, stage.settled, LastReplay);
    }
  }

  lemma SchedulingWork(w: World, e: Event)
    requires WorkInv(w) && Enabled(w, e) && (e.Submit? || e.Replay?)
    ensures WorkStep(w, e, Step(w, e))
  {
    match e
    case Submit(k, a, offer) => ScheduledWork(w, k, a, offer);
    case Replay(k, admissions, offers) => AllScheduledWork(w, k, admissions, offers);
  }

  lemma StepWork(w: World, e: Event)
    requires PendingInv(w) && InjectedInv(w) && HandsInv(w) && WorkInv(w) && Enabled(w, e)
    ensures WorkStep(w, e, Step(w, e))
  {
    if e.Submit? || e.Replay? {
      SchedulingWork(w, e);
    } else if e.Pop? || e.TakeInjected? {
      TurnWork(w, e.t, e);
    } else if Raises(e) {
      DeathWork(w, e.t, e);
    } else if e.Release? || e.ReleaseStranded? {
      ReleasesWork(w, e.t, e);
    } else {
      OtherWork(w, e);
    }
  }

  lemma {:induction false} RunWork(w: World, events: seq<Event>)
    requires WorldInv(w) && WorkInv(w) && ValidRun(w, events)
    ensures WorkInv(After(w, events))
    ensures LeakedTokens(After(w, events)) != {} <==> LeakedTokens(w) != {} || LeakingRun(w, events)
    ensures After(w, events).aborted <==> w.aborted || exists e :: e in events && Raises(e)
    decreases |events|
  {
    if events != [] {
      StepKeepsInv(w, events[0]);
      StepWork(w, events[0]);
      RunWork(Step(w, events[0]), events[1..]);
      assert forall e :: e in events <==> e == events[0] || e in events[1..];
    }
  }

  /** The count equals the admissions really held if and only if no coordinator call
      ever raised out of a thread that held some; the slots of those are lost for good. */
  lemma SlotsLeakExactlyWhenCallsRaise(limit: nat, events: seq<Event>)
    requires ValidRun(Idle(limit), events)
    ensures var w := After(Idle(limit), events);
            w.slots.claimed == |ListTokens(w.slots.pending)| + |ListTokens(w.slots.injected)| + |HandTokens(w)|
            <==> !LeakingRun(Idle(limit), events)
  {
    DispatcherConservation(limit, events);
    IdleInv(limit);
    assert LeakedTokens(Idle(limit)) == {};
    RunWork(Idle(limit), events);
  }

  // ------------------------------------------------------------ one live thread

  ghost function LiveThreads(w: World, contact: string): set<nat> {
    set t | t in w.slots.threads && w.slots.threads[t] == contact
  }

  /** Turns of one contact never overlap, and waiting work has a thread to take it. */
  lemma OneThreadPerContact(limit: nat, events: seq<Event>, contact: string)
    requires ValidRun(Idle(limit), events)
    ensures var w := After(Idle(limit), events);
            && |LiveThreads(w, contact)| == (if contact in w.slots.running then 1 else 0)
            && (Held(w.slots.pending, contact) != [] ==> |LiveThreads(w, contact)| == 1)
            && (Held(w.slots.injected, contact) != [] && !w.aborted ==> |LiveThreads(w, contact)| == 1)
  {
    IdleInv(limit);
    RunKeepsInv(Idle(limit), events);
    var w := After(Idle(limit), events);
    assert ThreadsInv(w) && CoveredInv(w);
    if contact in w.slots.running {
      var t :| t in w.slots.threads && w.slots.threads[t] == contact;
      assert LiveThreads(w, contact) == {t};
    } else {
      assert LiveThreads(w, contact) == {};
    }
    if Held(w.slots.pending, contact) != [] {
      assert WaitsAtTop(w, contact);
    }
  }

  /** A turn always starts from a single admission: a message for a busy contact is
      either injected into the running turn or handed back. */
  lemma TurnsStartFromOneAdmission(limit: nat, events: seq<Event>, contact: string)
    requires ValidRun(Idle(limit), events)
    ensures |Held(After(Idle(limit), events).slots.pending, contact)| <= 1
  {
    IdleInv(limit);
    RunKeepsInv(Idle(limit), events);
    assert CoveredInv(After(Idle(limit), events));
  }

  // --------------------------------------------------------------- settled once

  function IssuedBy(e: Event): set<nat> {
    match e
    case Submit(_, a, _) => {a.token}
    case DeferRaises(_, a) => {a.token}
    case Replay(_, admissions, _) => Tokens(admissions)
    case _ => {}
  }

  function Issued(events: seq<Event>): set<nat> {
    if events == [] then {} else IssuedBy(events[0]) + Issued(events[1..])
  }

  /** Everything known about, and what settled admissions were settled as. */
  ghost predicate Extends(w: World, w': World, issued: set<nat>) {
    && w'.owner.Keys + w'.settled.Keys == (w.owner.Keys + w.settled.Keys) + issued
    && (forall token :: token in w.settled ==> token in w'.settled && w'.settled[token] == w.settled[token])
  }

  lemma {:induction false} AllScheduledExtends(w: World, k: nat, admissions: Batch, offers: seq<bool>)
    requires |offers| == |admissions| && DistinctTokens(admissions)
    requires forall a :: a in admissions ==> Unissued(w, a.token)
    ensures Extends(w, WithAllScheduled(w, k, admissions, offers), Tokens(admissions))
    decreases |admissions|
  {
    if admissions == [] {
      assert Tokens(admissions) == {};
    } else {
      var a, rest := admissions[0], admissions[1..];
      var mid := WithScheduled(w, k, a, offers[0]);
      assert forall i :: 0 <= i < |rest| ==> rest[i] == admissions[i + 1];
      forall b | b in rest ensures Unissued(mid, b.token) {
        assert b in admissions;
        ScheduledIssuesOne(w, k, a, offers[0], b.token);
      }
      ScheduledExtends(w, k, a, offers[0]);
      AllScheduledExtends(mid, k, rest, offers[1..]);
      assert [a] + rest == admissions;
      TokensConcat([a], rest);
      assert Tokens([a]) == {a.token} by { assert a in [a]; }
    }
  }

  lemma ScheduledExtends(w: World, k: nat, a: Admission, offer: bool)
    requires Unissued(w, a.token)
    ensures Extends(w, WithScheduled(w, k, a, offer), {a.token})
  {
    var t := WithScheduled(w, k, a, offer);
    if ScheduleOne(w.slots, a, offer).1 == Overflowed {
      assert t.owner == w.owner && t.settled.Keys == w.settled.Keys + {a.token};
    } else {
      assert t.settled == w.settled && t.owner.Keys == w.owner.Keys + {a.token};
    }
    assert t.owner.Keys + t.settled.Keys == (w.owner.Keys + w.settled.Keys) + {a.token};
  }

  lemma LapseExtends(w: World, k: nat, a: Admission)
    requires Enabled(w, DeferRaises(k, a))
    ensures Extends(w, Step(w, DeferRaises(k, a)), {a.token})
  {
    assert Step(w, DeferRaises(k, a)).settled.Keys == w.settled.Keys + {a.token};
  }

  lemma HeldAreOwned(w: World, c: string)
    requires PendingInv(w) && InjectedInv(w)
    ensures Tokens(Held(w.slots.pending, c)) <= w.owner.Keys
    ensures Tokens(Held(w.slots.injected, c)) <= w.owner.Keys
  {
    assert PendingAccounted(w, c) && InjectedAccounted(w, c);
  }

  lemma PopExtends(w: World, t: nat)
    requires PendingInv(w) && InjectedInv(w) && t in w.threads
    ensures Extends(w, AfterPop(w, t), {})
  {
    assert AfterPop(w, t).owner.Keys == w.owner.Keys by {
      var moved := PopMoves(w, t);
      AssignMoves(w.owner, moved, InHand(t));
    }
    SameOwnedExtends(w, AfterPop(w, t));
  }

  /** The same admissions are owned, wherever they are now, and the same settled. */
  lemma SameOwnedExtends(w: World, out: World)
    requires out.owner.Keys == w.owner.Keys && out.settled == w.settled
    ensures Extends(w, out, {})
  {
  }

  lemma TakeExtends(w: World, t: nat)
    requires PendingInv(w) && InjectedInv(w) && Enabled(w, TakeInjected(t))
    ensures Extends(w, Step(w, TakeInjected(t)), {})
  {
    assert Step(w, TakeInjected(t)).owner.Keys == w.owner.Keys by {
      HeldAreOwned(w, w.threads[t].contact);
      AssignMoves(w.owner, Held(w.slots.injected, w.threads[t].contact), InHand(t));
    }
    SameOwnedExtends(w, Step(w, TakeInjected(t)));
  }

  lemma DeathExtends(w: World, t: nat)
    requires HandsInv(w) && t in w.threads
    ensures Extends(w, AfterDeath(w, t), {})
  {
    assert AfterDeath(w, t).owner.Keys == w.owner.Keys by {
      assert HandAccounted(w, t);
      AssignMoves(w.owner, Hands(w.threads[t].stage), Leaked);
    }
    SameOwnedExtends(w, AfterDeath(w, t));
  }

  /** Settling speaks only of admissions in hand that were not settled before. */
  lemma SettleExtends(w: World, t: nat, e: Event)
    requires HandsInv(w) && SettledInv(w) && (e.Settle? || e.CompleteStranded?) && e.t == t && Enabled(w, e)
    ensures Extends(w, Step(w, e), {})
  {
    var batch := w.threads[t].stage.settled;
    HandIsUnsettled(w, t, batch);
    RecordExtends(w, Step(w, e), batch, if e.Settle? && !w.threads[t].stage.ok then Retried else Completed);
  }

  lemma RecordExtends(w: World, out: World, batch: Batch, how: Settlement)
    requires out.owner == w.owner && out.settled == Record(w.settled, batch, how)
    requires forall token :: token in Tokens(batch) ==> token in w.owner && token !in w.settled
    ensures Extends(w, out, {})
  {
    RecordTokens(w.settled, batch, how);
    assert out.settled.Keys == w.settled.Keys + Tokens(batch);
  }

  lemma HandIsUnsettled(w: World, t: nat, batch: Batch)
    requires t in w.threads && HandAccounted(w, t) && SettledInv(w) && SettledHands(w.threads[t].stage) == []
    requires forall a :: a in batch ==> a in Hands(w.threads[t].stage)
    ensures forall token :: token in Tokens(batch) ==> token in w.owner && token !in w.settled
  {
    forall token | token in Tokens(batch) ensures token in w.owner && token !in w.settled {
      var a :| a in batch && a.token == token;
      assert a in Hands(w.threads[t].stage);
      assert w.owner[token] == InHand(t);
    }
  }

  lemma ReleaseExtends(w: World, t: nat, e: Event)
    requires SettledInv(w) && (e.Release? || e.ReleaseStranded?) && e.t == t && Enabled(w, e)
    ensures Extends(w, Step(w, e), {})
  {
    var batch := w.threads[t].stage.settled;
    assert SettledHands(w.threads[t].stage) == batch;
    forall token | token in Tokens(batch) ensures token in w.settled {
      var a :| a in batch && a.token == token;
    }
  }

  lemma StepExtends(w: World, e: Event)
    requires PendingInv(w) && InjectedInv(w) && HandsInv(w) && SettledInv(w) && Enabled(w, e)
    ensures Extends(w, Step(w, e), IssuedBy(e))
  {
    if e.Submit? || e.DeferRaises? || e.Replay? {
      IssueExtends(w, e);
    } else if e.Settle? || e.CompleteStranded? {
      SettleExtends(w, e.t, e);
    } else if e.Release? || e.ReleaseStranded? {
      ReleaseExtends(w, e.t, e);
    } else if e.Pop? || e.TakeInjected? || Raises(e) {
      HandExtends(w, e.t, e);
    } else {
      QuietExtends(w, e);
    }
  }

  lemma IssueExtends(w: World, e: Event)
    requires Enabled(w, e) && (e.Submit? || e.DeferRaises? || e.Replay?)
    ensures Extends(w, Step(w, e), IssuedBy(e))
  {
    match e
    case Submit(k, a, offer) => ScheduledExtends(w, k, a, offer);
    case DeferRaises(k, a) => LapseExtends(w, k, a);
    case Replay(k, admissions, offers) => AllScheduledExtends(w, k, admissions, offers);
  }

  lemma HandExtends(w: World, t: nat, e: Event)
    requires PendingInv(w) && InjectedInv(w) && HandsInv(w)
    requires (e.Pop? || e.TakeInjected? || Raises(e)) && e.t == t && Enabled(w, e)
    ensures Extends(w, Step(w, e), {})
  {
    if e.Pop? {
      PopExtends(w, t);
    } else if e.TakeInjected? {
      TakeExtends(w, t);
    } else {
      DeathExtends(w, t);
      assert Step(w, e) == AfterDeath(w, t);
    }
  }

  lemma QuietExtends(w: World, e: Event)
    requires Enabled(w, e)
    requires e.RunnerReturns? || e.CompleteRaises? || e.ReplayDone? || e.Exit? || e.Shutdown? || CallOnly(e)
    ensures Extends(w, Step(w, e), {})
  {
    assert Step(w, e).owner == w.owner && Step(w, e).settled == w.settled;
  }

  lemma ExtendsTwice(w: World, mid: World, end: World, a: set<nat>, b: set<nat>)
    requires Extends(w, mid, a) && Extends(mid, end, b)
    ensures Extends(w, end, a + b)
  {
  }

  lemma FirstExtends(w: World, e: Event)
    requires WorldInv(w) && Enabled(w, e)
    ensures WorldInv(Step(w, e)) && Extends(w, Step(w, e), IssuedBy(e))
  {
    StepExtends(w, e);
    StepKeepsInv(w, e);
  }

  ghost predicate EachExtends(w: World, events: seq<Event>)
    requires ValidRun(w, events)
    decreases |events|
  {
    events == [] || (Extends(w, Step(w, events[0]), IssuedBy(events[0])) && EachExtends(Step(w, events[0]), events[1..]))
  }

  lemma {:induction false} EveryStepExtends(w: World, events: seq<Event>)
    requires WorldInv(w) && ValidRun(w, events)
    ensures EachExtends(w, events)
    decreases |events|
  {
    if events != [] {
      FirstExtends(w, events[0]);
      EveryStepExtends(Step(w, events[0]), events[1..]);
    }
  }

  lemma {:induction false} ExtendsAlong(w: World, events: seq<Event>)
    requires ValidRun(w, events) && EachExtends(w, events)
    ensures Extends(w, After(w, events), Issued(events))
    decreases |events|
  {
    if events != [] {
      var mid := Step(w, events[0]);
      ExtendsAlong(mid, events[1..]);
      ExtendsTwice(w, mid, After(mid, events[1..]), IssuedBy(events[0]), Issued(events[1..]));
    }
  }

  /** Over any stretch of any run, a settlement once made is the only one. */
  lemma SettledOnce(w: World, events: seq<Event>)
    requires WorldInv(w) && ValidRun(w, events)
    ensures Extends(w, After(w, events), Issued(events))
  {
    EveryStepExtends(w, events);
    ExtendsAlong(w, events);
  }

  /** When every thread is gone and no call raised out of one, every admission ever
      issued has been settled and every slot is free again. */
  lemma IdleMeansAllSettled(limit: nat, events: seq<Event>)
    requires ValidRun(Idle(limit), events)
    requires forall e :: e in events ==> !Raises(e)
    requires After(Idle(limit), events).threads == map[]
    ensures After(Idle(limit), events).slots.claimed == 0
    ensures After(Idle(limit), events).settled.Keys == Issued(events)
  {
    var w := After(Idle(limit), events);
    IdleInv(limit);
    RunKeepsInv(Idle(limit), events);
    SettledOnce(Idle(limit), events);
    RunWork(Idle(limit), events);
    forall token | token in w.owner ensures false {
      OwnedNeedsThread(w, token);
    }
    assert w.owner == map[];
  }

  lemma OwnedNeedsThread(w: World, token: nat)
    requires WorldInv(w) && !w.aborted && token in w.owner
    ensures w.threads != map[]
  {
    match w.owner[token]
    case InPending(c) =>
      assert PendingAccounted(w, c);
      assert c in w.slots.pending;
      assert WaitsAtTop(w, c);
    case InInjected(c) =>
      assert InjectedAccounted(w, c);
      assert c in w.slots.injected;
      assert c in w.slots.running;
    case InHand(t) => assert t in w.threads;
    case Leaked => assert false;
  }

  // -------------------------------------------------------------------- replay

  ghost predicate IdleAndApart(s: Slots, admissions: Batch) {
    && (forall a :: a in admissions ==> a.contact !in s.running)
    && forall i, j :: 0 <= i < j < |admissions| ==> admissions[i].contact != admissions[j].contact
  }

  lemma FirstGetsAThread(s: Slots, admissions: Batch, offer: bool)
    requires admissions != [] && s.claimed < s.limit && IdleAndApart(s, admissions)
    ensures var r := ScheduleOne(s, admissions[0], offer);
            && r.1 != Overflowed && IdleAndApart(r.0, admissions[1..])
            && r.0.claimed == s.claimed + 1 && r.0.limit == s.limit
            && r.0.running == s.running + {admissions[0].contact}
  {
    var rest := admissions[1..];
    assert forall i :: 0 <= i < |rest| ==> rest[i] == admissions[i + 1];
    assert admissions[0] in admissions;
    forall a | a in rest ensures a in admissions && a.contact != admissions[0].contact {
      var i :| 0 <= i < |rest| && rest[i] == a;
      assert admissions[i + 1].contact != admissions[0].contact;
    }
  }

  /** Replaying the queue never hands a root straight back: the claim asks for no
      more roots than there are free slots and for no busy contact. */
  lemma {:induction false} ReplayNeverOverflows(s: Slots, admissions: Batch, offers: seq<bool>)
    requires |offers| == |admissions| && s.claimed + |admissions| <= s.limit
    requires IdleAndApart(s, admissions)
    ensures Schedule(s, admissions, offers).1 == []
    ensures Schedule(s, admissions, offers).0.claimed == s.claimed + |admissions|
    ensures Schedule(s, admissions, offers).0.running == s.running + (set a | a in admissions :: a.contact)
    decreases |admissions|
  {
    if admissions != [] {
      FirstGetsAThread(s, admissions, offers[0]);
      assert admissions == [admissions[0]] + admissions[1..];
      ReplayNeverOverflows(ScheduleOne(s, admissions[0], offers[0]).0, admissions[1..], offers[1..]);
    }
  }

  /** The world's slots follow the scheduling loop, and what overflows is deferred. */
  lemma {:induction false} WorldFollowsSchedule(w: World, k: nat, admissions: Batch, offers: seq<bool>)
    requires |offers| == |admissions|
    ensures WithAllScheduled(w, k, admissions, offers).slots == Schedule(w.slots, admissions, offers).0
    ensures WithAllScheduled(w, k, admissions, offers).settled ==
      Record(w.settled, Schedule(w.slots, admissions, offers).1, Deferred)
    decreases |admissions|
  {
    if admissions == [] {
      assert Record(w.settled, [], Deferred) == w.settled;
    } else {
      var mid := WithScheduled(w, k, admissions[0], offers[0]);
      var later := Schedule(ScheduleOne(w.slots, admissions[0], offers[0]).0, admissions[1..], offers[1..]).1;
      WorldFollowsSchedule(mid, k, admissions[1..], offers[1..]);
      RecordFirst(w.settled, admissions[0], later);
    }
  }

  lemma RecordFirst(settled: map<nat, Settlement>, a: Admission, later: Batch)
    ensures Record(settled[a.token := Deferred], later, Deferred) == Record(settled, [a] + later, Deferred)
    ensures [] + later == later
  {
    TokensConcat([a], later);
    assert Tokens([a]) == {a.token} by { assert a in [a]; }
    RecordTokens(settled[a.token := Deferred], later, Deferred);
    RecordTokens(settled, [a] + later, Deferred);
    SameEntries(Record(settled[a.token := Deferred], later, Deferred), Record(settled, [a] + later, Deferred));
  }

  lemma SameEntries(l: map<nat, Settlement>, r: map<nat, Settlement>)
    requires l.Keys == r.Keys && forall token :: token in l.Keys ==> l[token] == r[token]
    ensures l == r
  {
  }

  lemma RecordTokens(settled: map<nat, Settlement>, batch: Batch, how: Settlement)
    ensures Record(settled, batch, how).Keys == settled.Keys + Tokens(batch)
    ensures forall token :: token in settled.Keys + Tokens(batch) ==>
      Record(settled, batch, how)[token] == if token in Tokens(batch) then how else settled[token]
  {
  }
}
