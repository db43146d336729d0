/** What becomes of injected messages when an offer is accepted only by the contact's own
    turn while its runner is going, which is how the live runs of
    `core/iwantto/injection.py` register themselves. */
module DispatcherInjection {
  import opened Common
  import opened DispatcherModel
  import opened DispatcherInvariant
  import opened DispatcherTheorem
  import opened DispatcherRuns
  import opened DispatcherStarts

  /** The thread's runner is going, or has returned and what was injected is still to be taken. */
  predicate InTurn(stage: Stage) {
    stage.Running? || stage.Finished?
  }

  ghost predicate TurnOf(w: World, t: nat, contact: string) {
    t in w.threads && w.threads[t].contact == contact && InTurn(w.threads[t].stage)
  }

  ghost predicate InjectedInTurn(w: World) {
    forall c :: Held(w.slots.injected, c) != [] ==> exists t: nat :: TurnOf(w, t, c)
  }

  ghost predicate RunnerGoing(w: World, contact: string) {
    exists t: nat :: TurnOf(w, t, contact) && w.threads[t].stage.Running?
  }

  predicate Accepts(w: World, e: Event) {
    e.Submit? && ScheduleOne(w.slots, e.a, e.offer).1 == Injected
  }

  /** Every accepted offer of the run came while the contact's runner was going. */
  ghost predicate OffersInTheRun(w: World, events: seq<Event>)
    requires ValidRun(w, events)
    decreases |events|
  {
    events == []
    || ((Accepts(w, events[0]) ==> RunnerGoing(w, events[0].a.contact))
        && OffersInTheRun(Step(w, events[0]), events[1..]))
  }

  /** Turns stay, and nobody has more injected than before. */
  lemma TurnsStay(w: World, out: World)
    requires InjectedInTurn(w)
    requires forall c :: Held(out.slots.injected, c) != [] ==> Held(w.slots.injected, c) != []
    requires forall t: nat, c :: TurnOf(w, t, c) ==> TurnOf(out, t, c)
    ensures InjectedInTurn(out)
  {
    forall c | Held(out.slots.injected, c) != [] ensures exists t: nat :: TurnOf(out, t, c) {
      var t: nat :| TurnOf(w, t, c);
      assert TurnOf(out, t, c);
    }
  }

  /** Only thread t moves, and it was not in its turn. */
  lemma OneMoves(w: World, out: World, t: nat)
    requires InjectedInTurn(w) && t in w.threads && !InTurn(w.threads[t].stage)
    requires forall c :: Held(out.slots.injected, c) != [] ==> Held(w.slots.injected, c) != []
    requires forall u :: u in w.threads && u != t ==> u in out.threads && out.threads[u] == w.threads[u]
    ensures InjectedInTurn(out)
  {
    TurnsStay(w, out);
  }

  /** Scheduling one admission leaves every thread there is as it is. */
  lemma ScheduledTurnsStay(w: World, k: nat, a: Admission, offer: bool, t: nat, c: string)
    requires TurnOf(w, t, c) && t < w.slots.nextThread
    ensures TurnOf(WithScheduled(w, k, a, offer), t, c)
  {
  }

  lemma ScheduledInjected(w: World, k: nat, a: Admission, offer: bool, c: string)
    requires Held(WithScheduled(w, k, a, offer).slots.injected, c) != []
    ensures Held(w.slots.injected, c) != [] || (c == a.contact && ScheduleOne(w.slots, a, offer).1 == Injected)
  {
  }

  lemma SubmitKeepsTurns(w: World, e: Event)
    requires ThreadsInv(w) && InjectedInTurn(w) && e.Submit? && Enabled(w, e)
    requires Accepts(w, e) ==> RunnerGoing(w, e.a.contact)
    ensures InjectedInTurn(Step(w, e))
  {
    var out := WithScheduled(w, e.k, e.a, e.offer);
    forall c | Held(out.slots.injected, c) != [] ensures exists t: nat :: TurnOf(out, t, c) {
      ScheduledInjected(w, e.k, e.a, e.offer, c);
      var t: nat :| TurnOf(w, t, c);
      ScheduledTurnsStay(w, e.k, e.a, e.offer, t, c);
    }
  }

  /** The replay admits idle contacts alone, so it injects nothing. */
  lemma {:induction false} ReplayInjectsNothing(w: World, k: nat, admissions: Batch, offers: seq<bool>, t: nat, c: string)
    requires |offers| == |admissions| && w.slots.claimed + |admissions| <= w.slots.limit
    requires IdleAndApart(w.slots, admissions)
    ensures var out := WithAllScheduled(w, k, admissions, offers);
            && Held(out.slots.injected, c) == Held(w.slots.injected, c)
            && (TurnOf(w, t, c) && t < w.slots.nextThread ==> TurnOf(out, t, c))
    decreases |admissions|
  {
    if admissions != [] {
      assert admissions[0] in admissions;
      FirstGetsAThread(w.slots, admissions, offers[0]);
      ReplayInjectsNothing(WithScheduled(w, k, admissions[0], offers[0]), k, admissions[1..], offers[1..], t, c);
    }
  }

  lemma ReplayKeepsTurns(w: World, e: Event)
    requires ThreadsInv(w) && InjectedInTurn(w) && e.Replay? && Enabled(w, e)
    ensures InjectedInTurn(Step(w, e))
  {
    var out := WithAllScheduled(w, e.k, e.admissions, e.offers);
    forall c | Held(out.slots.injected, c) != [] ensures exists t: nat :: TurnOf(out, t, c) {
      ReplayInjectsNothing(w, e.k, e.admissions, e.offers, 0, c);
      var t: nat :| TurnOf(w, t, c);
      ReplayInjectsNothing(w, e.k, e.admissions, e.offers, t, c);
    }
    forall c | Held(Step(w, e).slots.injected, c) != [] ensures exists t: nat :: TurnOf(Step(w, e), t, c) {
      var t: nat :| TurnOf(out, t, c);
      assert TurnOf(Step(w, e), t, c);
    }
  }

  lemma PopKeepsTurns(w: World, t: nat)
    requires InjectedInTurn(w) && Enabled(w, Pop(t))
    ensures InjectedInTurn(AfterPop(w, t))
  {
    OneMoves(w, AfterPop(w, t), t);
  }

  lemma TakeKeepsTurns(w: World, t: nat)
    requires InjectedInTurn(w) && Enabled(w, TakeInjected(t))
    ensures InjectedInTurn(Step(w, TakeInjected(t)))
  {
    var out := Step(w, TakeInjected(t));
    forall c | Held(out.slots.injected, c) != [] ensures exists u: nat :: TurnOf(out, u, c) {
      assert Held(w.slots.injected, c) != [] && c != w.threads[t].contact;
      var u: nat :| TurnOf(w, u, c);
      assert TurnOf(out, u, c);
    }
  }

  lemma RaiseKeepsTurns(w: World, e: Event)
    requires InjectedInTurn(w) && Raises(e) && Enabled(w, e)
    ensures InjectedInTurn(Step(w, e))
  {
    assert Step(w, e) == AfterDeath(w, e.t);
    OneMoves(w, Step(w, e), e.t);
  }

  lemma ReturnKeepsTurns(w: World, t: nat, ok: bool)
    requires InjectedInTurn(w) && Enabled(w, RunnerReturns(t, ok))
    ensures InjectedInTurn(Step(w, RunnerReturns(t, ok)))
  {
    TurnsStay(w, Step(w, RunnerReturns(t, ok)));
  }

  /** What a thread does after its turn, and what is no thread's doing. */
  lemma RestKeepsTurns(w: World, e: Event)
    requires InjectedInTurn(w) && Enabled(w, e)
    requires !e.Submit? && !e.Replay? && !e.Pop? && !e.RunnerReturns? && !e.TakeInjected? && !Raises(e)
    ensures InjectedInTurn(Step(w, e))
  {
    TurnsStay(w, Step(w, e));
  }

  lemma StepKeepsTurns(w: World, e: Event)
    requires ThreadsInv(w) && InjectedInTurn(w) && Enabled(w, e)
    requires Accepts(w, e) ==> RunnerGoing(w, e.a.contact)
    ensures InjectedInTurn(Step(w, e))
  {
    if e.Submit? {
      SubmitKeepsTurns(w, e);
    } else if e.Replay? {
      ReplayKeepsTurns(w, e);
    } else if e.Pop? {
      PopKeepsTurns(w, e.t);
    } else if e.RunnerReturns? {
      ReturnKeepsTurns(w, e.t, e.ok);
    } else if e.TakeInjected? {
      TakeKeepsTurns(w, e.t);
    } else if Raises(e) {
      RaiseKeepsTurns(w, e);
    } else {
      RestKeepsTurns(w, e);
    }
  }

  /** A turn and another live thread are never of one contact. */
  lemma TurnIsAlone(w: World, t: nat)
    requires ThreadsInv(w) && InjectedInTurn(w) && t in w.threads
    requires Live(w.threads[t].stage) && !InTurn(w.threads[t].stage)
    ensures Held(w.slots.injected, w.threads[t].contact) == []
  {
    if Held(w.slots.injected, w.threads[t].contact) != [] {
      var u: nat :| TurnOf(w, u, w.threads[t].contact);
      OneOwner(w, t, u);
    }
  }

  ghost predicate NoneStranded(w: World) {
    forall t :: t in w.threads ==> !w.threads[t].stage.Stranded?
  }

  lemma PopStrandsNothing(w: World, t: nat)
    requires ThreadsInv(w) && InjectedInTurn(w) && NoneStranded(w) && Enabled(w, Pop(t))
    ensures NoneStranded(AfterPop(w, t))
  {
    TurnIsAlone(w, t);
    var stage := PopWithNothingInjected(w, t);
  }

  lemma PopWithNothingInjected(w: World, t: nat) returns (stage: Stage)
    requires t in w.threads && w.threads[t].stage.AtTop? && Held(w.slots.injected, w.threads[t].contact) == []
    ensures AfterPop(w, t).threads == w.threads[t := w.threads[t].(stage := stage)] && !stage.Stranded?
  {
    if Held(w.slots.pending, w.threads[t].contact) == [] {
      stage := LastReplay;
    } else {
      stage := PopWithWork(w, t);
    }
  }

  lemma PopWithWork(w: World, t: nat) returns (stage: Stage)
    requires t in w.threads && w.threads[t].stage.AtTop? && Held(w.slots.pending, w.threads[t].contact) != []
    ensures AfterPop(w, t).threads == w.threads[t := w.threads[t].(stage := stage)] && !stage.Stranded?
  {
    var batches := Split(Held(w.slots.pending, w.threads[t].contact));
    stage := Running(batches[0], batches[1..]);
  }

  lemma ReplayStrandsNothing(w: World, e: Event)
    requires NoneStranded(w) && e.Replay? && Enabled(w, e)
    ensures NoneStranded(Step(w, e))
  {
    AllStartedStrandNothing(w, e.k, e.admissions, e.offers);
  }

  lemma {:induction false} AllStartedStrandNothing(w: World, k: nat, admissions: Batch, offers: seq<bool>)
    requires NoneStranded(w) && |offers| == |admissions|
    ensures NoneStranded(WithAllScheduled(w, k, admissions, offers))
    decreases |admissions|
  {
    if admissions != [] {
      AllStartedStrandNothing(WithScheduled(w, k, admissions[0], offers[0]), k, admissions[1..], offers[1..]);
    }
  }

  lemma StepStrandsNothing(w: World, e: Event)
    requires ThreadsInv(w) && InjectedInTurn(w) && NoneStranded(w) && Enabled(w, e)
    ensures NoneStranded(Step(w, e))
  {
    if e.Pop? {
      PopStrandsNothing(w, e.t);
    } else if e.Replay? {
      ReplayStrandsNothing(w, e);
    }
  }

  lemma RaisersArePastTheirTurn(w: World, e: Event)
    requires Raises(e) && Enabled(w, e)
    ensures e.t in w.threads && !InTurn(w.threads[e.t].stage)
  {
  }

  /** No raising call comes while messages are injected. */
  lemma KillsNothing(w: World, e: Event, contact: string)
    requires ThreadsInv(w) && InjectedInTurn(w) && Enabled(w, e)
    ensures !Kills(w, e, contact)
  {
    if Kills(w, e, contact) {
      RaisersArePastTheirTurn(w, e);
      TurnIsAlone(w, e.t);
    }
  }

  ghost predicate TurnsInv(w: World) {
    ThreadsInv(w) && InjectedInTurn(w) && NoneStranded(w)
  }

  lemma StepKeepsTurnsInv(w: World, e: Event)
    requires TurnsInv(w) && WorldInv(w) && Enabled(w, e) && (Accepts(w, e) ==> RunnerGoing(w, e.a.contact))
    ensures TurnsInv(Step(w, e)) && WorldInv(Step(w, e))
  {
    StepKeepsInv(w, e);
    StepKeepsTurns(w, e);
    StepStrandsNothing(w, e);
  }

  lemma {:induction false} RunKeepsTurns(w: World, events: seq<Event>, contact: string)
    requires WorldInv(w) && TurnsInv(w) && ValidRun(w, events) && OffersInTheRun(w, events)
    ensures TurnsInv(After(w, events)) && !LosesInjected(w, events, contact)
    decreases |events|
  {
    if events != [] {
      KillsNothing(w, events[0], contact);
      StepKeepsTurnsInv(w, events[0]);
      RunKeepsTurns(Step(w, events[0]), events[1..], contact);
    }
  }

  /** The turn a contact's messages were put into is the contact's only live thread. */
  lemma TheTurnIsTheThread(w: World, contact: string)
    requires TurnsInv(w) && Held(w.slots.injected, contact) != []
    ensures exists t: nat :: TurnOf(w, t, contact) && LiveThreads(w, contact) == {t}
  {
    var t: nat :| TurnOf(w, t, contact);
    LiveRuns(w, t);
    forall u | u in LiveThreads(w, contact) ensures u == t {
      if u != t {
        OneOwner(w, u, t);
      }
    }
    assert LiveThreads(w, contact) == {t};
  }

  lemma IdleTurns(limit: nat)
    ensures WorldInv(Idle(limit)) && TurnsInv(Idle(limit))
  {
    IdleInv(limit);
  }

  /** As long as offers are accepted only by a runner that is going, injected messages
      always have the turn they were put into, which is still to take them, as the one
      thread of their contact; nothing is ever stranded, and no raising call loses any. */
  lemma OffersInTheRunAreTaken(limit: nat, events: seq<Event>, contact: string)
    requires ValidRun(Idle(limit), events) && OffersInTheRun(Idle(limit), events)
    ensures var w := After(Idle(limit), events);
            && (Held(w.slots.injected, contact) != [] ==>
                  exists t: nat :: TurnOf(w, t, contact) && LiveThreads(w, contact) == {t})
            && NoneStranded(w)
    ensures !LosesInjected(Idle(limit), events, contact)
  {
    IdleTurns(limit);
    RunKeepsTurns(Idle(limit), events, contact);
    if Held(After(Idle(limit), events).slots.injected, contact) != [] {
      TheTurnIsTheThread(After(Idle(limit), events), contact);
    }
  }
}
