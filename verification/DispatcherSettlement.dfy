/** How each admission is settled: completed, retried or handed back, read off what its runner
    and the coordinator's calls did along the run. */
module DispatcherSettlement {
  import opened Common
  import opened DispatcherModel
  import opened DispatcherInvariant
  import opened DispatcherTheorem
  import opened DispatcherRuns

  /** What each thread last heard: its runner's answer, or that the completion raised. */
  type Verdicts = map<nat, bool>

  function Heard(verdicts: Verdicts, e: Event): Verdicts {
    match e
    case RunnerReturns(t, ok) => verdicts[t := ok]
    case CompleteRaises(t) => verdicts[t := false]
    case _ => verdicts
  }

  /** The admission is among those the thread is about to settle. */
  ghost predicate Settles(w: World, t: nat, token: nat) {
    && t in w.threads
    && ((w.threads[t].stage.Settling? && exists a :: a in w.threads[t].stage.settled && a.token == token)
        || (w.threads[t].stage.Stranded? && exists a :: a in w.threads[t].stage.settled && a.token == token))
  }

  /** The event settles the admission this way: as its runner's answer and its completion went;
      as completed when it was injected and stranded; as handed back when a running turn or a
      full dispatcher turned it away. */
  ghost predicate SettlesNow(w: World, verdicts: Verdicts, e: Event, token: nat, how: Settlement) {
    match how
    case Completed =>
      (e.Settle? && Settles(w, e.t, token) && e.t in verdicts && verdicts[e.t])
      || (e.CompleteStranded? && Settles(w, e.t, token))
    case Retried => e.Settle? && Settles(w, e.t, token) && e.t in verdicts && !verdicts[e.t]
    case Deferred =>
      e.Submit? && e.a.token == token
      && (w.slots.claimed >= w.slots.limit || (e.a.contact in w.slots.running && !e.offer))
    case Lapsed => e.DeferRaises? && e.a.token == token
  }

  ghost predicate SettledAlong(w: World, verdicts: Verdicts, events: seq<Event>, token: nat, how: Settlement)
    requires ValidRun(w, events)
    decreases |events|
  {
    events != []
    && (SettlesNow(w, verdicts, events[0], token, how)
        || SettledAlong(Step(w, events[0]), Heard(verdicts, events[0]), events[1..], token, how))
  }

  ghost predicate IsSettled(w: World, token: nat, how: Settlement) {
    token in w.settled && w.settled[token] == how
  }

  // ------------------------------------------------------------------ verdicts

  /** A thread past its runner remembers what it heard. */
  ghost predicate VerdictsInv(w: World, verdicts: Verdicts) {
    forall t :: t in w.threads && (w.threads[t].stage.Finished? || w.threads[t].stage.Settling?) ==>
      t in verdicts && verdicts[t] == w.threads[t].stage.ok
  }

  lemma ScheduledVerdicts(w: World, k: nat, a: Admission, offer: bool, verdicts: Verdicts)
    requires VerdictsInv(w, verdicts)
    ensures VerdictsInv(WithScheduled(w, k, a, offer), verdicts)
  {
  }

  lemma {:induction false} AllScheduledVerdicts(w: World, k: nat, admissions: Batch, offers: seq<bool>, verdicts: Verdicts)
    requires VerdictsInv(w, verdicts) && |offers| == |admissions|
    ensures VerdictsInv(WithAllScheduled(w, k, admissions, offers), verdicts)
    decreases |admissions|
  {
    if admissions != [] {
      ScheduledVerdicts(w, k, admissions[0], offers[0], verdicts);
      AllScheduledVerdicts(WithScheduled(w, k, admissions[0], offers[0]), k, admissions[1..], offers[1..], verdicts);
    }
  }

  lemma ReplayVerdicts(w: World, e: Event, verdicts: Verdicts)
    requires VerdictsInv(w, verdicts) && e.Replay? && Enabled(w, e)
    ensures VerdictsInv(Step(w, e), verdicts)
  {
    AllScheduledVerdicts(w, e.k, e.admissions, e.offers, verdicts);
    assert Step(w, e).threads == WithAllScheduled(w, e.k, e.admissions, e.offers).threads;
  }

  lemma PopThreads(w: World, t: nat) returns (stage: Stage)
    requires t in w.threads && w.threads[t].stage.AtTop?
    ensures AfterPop(w, t).threads == w.threads[t := w.threads[t].(stage := stage)]
    ensures !stage.Finished? && !stage.Settling?
  {
    var held := Held(w.slots.pending, w.threads[t].contact);
    if held == [] {
      var stranded := Held(w.slots.injected, w.threads[t].contact);
      stage := if stranded == [] then LastReplay else Stranded(stranded);
    } else {
      stage := PopTurn(w, t);
    }
  }

  lemma PopTurn(w: World, t: nat) returns (stage: Stage)
    requires t in w.threads && Held(w.slots.pending, w.threads[t].contact) != []
    ensures stage.Running? && AfterPop(w, t).threads == w.threads[t := w.threads[t].(stage := stage)]
  {
    var batches := Split(Held(w.slots.pending, w.threads[t].contact));
    SplitLosesNothing(Held(w.slots.pending, w.threads[t].contact));
    stage := Running(batches[0], batches[1..]);
  }

  lemma PopVerdicts(w: World, t: nat, verdicts: Verdicts)
    requires VerdictsInv(w, verdicts) && Enabled(w, Pop(t))
    ensures VerdictsInv(AfterPop(w, t), verdicts)
  {
    var stage := PopThreads(w, t);
  }

  lemma TurnVerdicts(w: World, e: Event, verdicts: Verdicts)
    requires VerdictsInv(w, verdicts) && Enabled(w, e) && (e.RunnerReturns? || e.TakeInjected? || e.CompleteRaises?)
    ensures VerdictsInv(Step(w, e), Heard(verdicts, e))
  {
  }

  lemma OtherVerdicts(w: World, e: Event, verdicts: Verdicts)
    requires VerdictsInv(w, verdicts) && Enabled(w, e)
    requires !e.Replay? && !e.Pop? && !e.RunnerReturns? && !e.TakeInjected? && !e.CompleteRaises? && !e.Submit?
    ensures VerdictsInv(Step(w, e), verdicts)
  {
  }

  lemma StepVerdicts(w: World, e: Event, verdicts: Verdicts)
    requires VerdictsInv(w, verdicts) && Enabled(w, e)
    ensures VerdictsInv(Step(w, e), Heard(verdicts, e))
  {
    if e.Replay? {
      ReplayVerdicts(w, e, verdicts);
    } else if e.Submit? {
      ScheduledVerdicts(w, e.k, e.a, e.offer, verdicts);
    } else if e.Pop? {
      PopVerdicts(w, e.t, verdicts);
    } else if e.RunnerReturns? || e.TakeInjected? || e.CompleteRaises? {
      TurnVerdicts(w, e, verdicts);
    } else {
      OtherVerdicts(w, e, verdicts);
    }
  }

  // --------------------------------------------------------------- settlements

  lemma RecordSays(settled: map<nat, Settlement>, batch: Batch, how: Settlement, token: nat)
    ensures token in Record(settled, batch, how) <==> token in settled || token in Tokens(batch)
    ensures token in Record(settled, batch, how) ==>
              Record(settled, batch, how)[token] == if token in Tokens(batch) then how else settled[token]
  {
  }

  /** What is about to be settled is in hand and was not settled before. */
  lemma SettlesUnsettled(w: World, t: nat, token: nat)
    requires WorldInv(w) && Settles(w, t, token)
    ensures token !in w.settled && token in Tokens(w.threads[t].stage.settled)
    ensures token in w.owner
  {
    assert HandAccounted(w, t);
    HandIsUnsettled(w, t, w.threads[t].stage.settled);
  }

  /** Recording a batch that was not settled settles exactly its admissions, this way. */
  lemma RecordSettles(w: World, t: World, batch: Batch, how: Settlement, token: nat, asked: Settlement)
    requires t.settled == Record(w.settled, batch, how)
    requires token in Tokens(batch) ==> token !in w.settled
    ensures IsSettled(t, token, asked) <==> IsSettled(w, token, asked) || (token in Tokens(batch) && asked == how)
  {
    RecordSays(w.settled, batch, how, token);
  }

  lemma InTheBatch(w: World, t: nat, token: nat)
    requires WorldInv(w) && t in w.threads && (w.threads[t].stage.Settling? || w.threads[t].stage.Stranded?)
    ensures Settles(w, t, token) <==> token in Tokens(w.threads[t].stage.settled)
    ensures Settles(w, t, token) ==> token !in w.settled
  {
    if token in Tokens(w.threads[t].stage.settled) {
      assert Settles(w, t, token);
      SettlesUnsettled(w, t, token);
    }
  }

  lemma SettleStep(w: World, verdicts: Verdicts, t: nat, token: nat, how: Settlement)
    requires WorldInv(w) && VerdictsInv(w, verdicts) && Enabled(w, Event.Settle(t))
    ensures IsSettled(Step(w, Event.Settle(t)), token, how)
            <==> IsSettled(w, token, how) || SettlesNow(w, verdicts, Event.Settle(t), token, how)
  {
    InTheBatch(w, t, token);
    RecordSettles(w, Step(w, Event.Settle(t)), w.threads[t].stage.settled,
                  if w.threads[t].stage.ok then Completed else Retried, token, how);
  }

  lemma StrandedStep(w: World, verdicts: Verdicts, t: nat, token: nat, how: Settlement)
    requires WorldInv(w) && Enabled(w, CompleteStranded(t))
    ensures IsSettled(Step(w, CompleteStranded(t)), token, how)
            <==> IsSettled(w, token, how) || SettlesNow(w, verdicts, CompleteStranded(t), token, how)
  {
    InTheBatch(w, t, token);
    RecordSettles(w, Step(w, CompleteStranded(t)), w.threads[t].stage.settled, Completed, token, how);
  }

  lemma SubmitStep(w: World, verdicts: Verdicts, e: Event, token: nat, how: Settlement)
    requires Enabled(w, e) && e.Submit?
    ensures IsSettled(Step(w, e), token, how) <==> IsSettled(w, token, how) || SettlesNow(w, verdicts, e, token, how)
  {
  }

  lemma DeferStep(w: World, verdicts: Verdicts, e: Event, token: nat, how: Settlement)
    requires Enabled(w, e) && e.DeferRaises?
    ensures IsSettled(Step(w, e), token, how) <==> IsSettled(w, token, how) || SettlesNow(w, verdicts, e, token, how)
  {
  }

  lemma ReplaySettlesNothing(w: World, e: Event)
    requires e.Replay? && Enabled(w, e)
    ensures Step(w, e).settled == w.settled
  {
    WorldFollowsSchedule(w, e.k, e.admissions, e.offers);
    ReplayNeverOverflows(w.slots, e.admissions, e.offers);
    assert Record(w.settled, [], Deferred) == w.settled;
  }

  lemma OtherSettlesNothing(w: World, e: Event)
    requires Enabled(w, e)
    requires !e.Replay? && !e.Submit? && !e.DeferRaises? && !e.Settle? && !e.CompleteStranded?
    ensures Step(w, e).settled == w.settled
  {
  }

  lemma StepSettles(w: World, verdicts: Verdicts, e: Event, token: nat, how: Settlement)
    requires WorldInv(w) && VerdictsInv(w, verdicts) && Enabled(w, e)
    ensures IsSettled(Step(w, e), token, how) <==> IsSettled(w, token, how) || SettlesNow(w, verdicts, e, token, how)
  {
    if e.Settle? {
      SettleStep(w, verdicts, e.t, token, how);
    } else if e.CompleteStranded? {
      StrandedStep(w, verdicts, e.t, token, how);
    } else if e.Submit? {
      SubmitStep(w, verdicts, e, token, how);
    } else if e.DeferRaises? {
      DeferStep(w, verdicts, e, token, how);
    } else if e.Replay? {
      ReplaySettlesNothing(w, e);
    } else {
      OtherSettlesNothing(w, e);
    }
  }

  lemma {:induction false} SettlesAlong(w: World, verdicts: Verdicts, events: seq<Event>, token: nat, how: Settlement)
    requires WorldInv(w) && VerdictsInv(w, verdicts) && ValidRun(w, events)
    ensures IsSettled(After(w, events), token, how)
            <==> IsSettled(w, token, how) || SettledAlong(w, verdicts, events, token, how)
    decreases |events|
  {
    if events != [] {
      var e := events[0];
      StepSettles(w, verdicts, e, token, how);
      StepVerdicts(w, e, verdicts);
      StepKeepsInv(w, e);
      SettlesAlong(Step(w, e), Heard(verdicts, e), events[1..], token, how);
    }
  }

  /** Over any run an admission is completed exactly when the runner of the turn that held it
      returned cleanly and its completion did not raise, or it was completed as stranded;
      retried exactly when that runner or that completion raised; handed back exactly when it
      was turned away; and left to lapse exactly when handing it back raised. */
  lemma SettledAsItWent(limit: nat, events: seq<Event>, token: nat, how: Settlement)
    requires ValidRun(Idle(limit), events)
    ensures IsSettled(After(Idle(limit), events), token, how) <==> SettledAlong(Idle(limit), map[], events, token, how)
  {
    IdleInv(limit);
    SettlesAlong(Idle(limit), map[], events, token, how);
  }

  // ------------------------------------------------------------- one turn's batch

  /** How the attempt at one batch ends. */
  datatype Outcome = Cleanly | ToRetry | Aborted

  function OutcomeOf(ran: bool, completed: bool, retried: bool): Outcome {
    if ran && completed then Cleanly else if retried then ToRetry else Aborted
  }

  /** The steps of one attempt at a batch, from its runner's answer to its end. */
  function BatchEvents(t: nat, ran: bool, completed: bool, retried: bool): seq<Event> {
    [RunnerReturns(t, ran), TakeInjected(t)]
    + (if ran && !completed then [CompleteRaises(t)] else [])
    + (match OutcomeOf(ran, completed, retried)
       case Aborted => [RetryRaises(t)]
       case _ => [Event.Settle(t), Event.Release(t)])
  }

  lemma {:induction false} RunOn(w: World, events: seq<Event>, e: Event)
    requires ValidRun(w, events) && Enabled(After(w, events), e)
    ensures ValidRun(w, events + [e]) && After(w, events + [e]) == Step(After(w, events), e)
    decreases |events|
  {
    if events == [] {
      assert [] + [e] == [e] && [e][1..] == [];
      assert After(w, [e]) == After(Step(w, e), []);
    } else {
      assert (events + [e])[1..] == events[1..] + [e];
      RunOn(Step(w, events[0]), events[1..], e);
    }
  }

  /** The turn after its runner returned and took what was injected meanwhile. */
  ghost predicate Took(w: World, u: World, t: nat, ran: bool)
    requires t in w.threads && w.threads[t].stage.Running?
  {
    && u.settled == w.settled && u.unstarted == w.unstarted && u.calls == w.calls
    && u.threads == w.threads[t := Thread(w.threads[t].contact,
                                          Settling(w.threads[t].stage.batch + Held(w.slots.injected, w.threads[t].contact),
                                                   w.threads[t].stage.rest, ran))]
    && u.slots == w.slots.(injected := w.slots.injected - {w.threads[t].contact})
  }

  lemma RunnerThenTake(w: World, t: nat, ran: bool) returns (events: seq<Event>)
    requires t in w.threads && w.threads[t].stage.Running?
    ensures events == [RunnerReturns(t, ran), TakeInjected(t)] && ValidRun(w, events)
    ensures Took(w, After(w, events), t, ran)
  {
    RunOn(w, [], RunnerReturns(t, ran));
    assert [] + [RunnerReturns(t, ran)] == [RunnerReturns(t, ran)];
    RunOn(w, [RunnerReturns(t, ran)], TakeInjected(t));
    events := [RunnerReturns(t, ran)] + [TakeInjected(t)];
  }

  /** After an attempt at a batch: the batch and what was injected are completed or retried and
      their slots given back, or the call raised and the contact is given up, slots and all. */
  ghost predicate AttemptEnds(w: World, v: World, t: nat, outcome: Outcome)
    requires t in w.threads && w.threads[t].stage.Running?
  {
    var contact := w.threads[t].contact;
    var all := w.threads[t].stage.batch + Held(w.slots.injected, contact);
    && v.unstarted == w.unstarted && v.calls == w.calls
    && match outcome
    case Aborted =>
      && v.settled == w.settled && v.threads == w.threads - {t}
      && v.slots == w.slots.(injected := w.slots.injected - {contact}, running := w.slots.running - {contact},
                             threads := w.slots.threads - {t})
    case _ =>
      && v.settled == Record(w.settled, all, if outcome.Cleanly? then Completed else Retried)
      && v.threads == w.threads[t := Thread(contact, Replaying(w.threads[t].stage.rest))]
      && v.slots == w.slots.(injected := w.slots.injected - {contact},
                             claimed := if w.slots.claimed < |all| then 0 else w.slots.claimed - |all|)
  }

  lemma AbortedTail(w: World, u: World, t: nat, ok: bool) returns (events: seq<Event>)
    requires t in w.threads && w.threads[t].stage.Running? && Took(w, u, t, ok) && !ok
    ensures events == [RetryRaises(t)] && ValidRun(u, events) && AttemptEnds(w, After(u, events), t, Aborted)
  {
    RunOn(u, [], RetryRaises(t));
    events := [] + [RetryRaises(t)];
    assert After(u, events) == AfterDeath(u, t);
  }

  lemma SettledTail(w: World, u: World, t: nat, ok: bool) returns (events: seq<Event>)
    requires t in w.threads && w.threads[t].stage.Running? && Took(w, u, t, ok)
    ensures events == [Event.Settle(t), Event.Release(t)] && ValidRun(u, events)
    ensures AttemptEnds(w, After(u, events), t, if ok then Cleanly else ToRetry)
  {
    RunOn(u, [], Event.Settle(t));
    assert [] + [Event.Settle(t)] == [Event.Settle(t)];
    RunOn(u, [Event.Settle(t)], Event.Release(t));
    events := [Event.Settle(t)] + [Event.Release(t)];
  }

  lemma {:induction false} Joined(w: World, a: seq<Event>, b: seq<Event>)
    requires ValidRun(w, a) && ValidRun(After(w, a), b)
    ensures ValidRun(w, a + b) && After(w, a + b) == After(After(w, a), b)
    decreases |a|
  {
    if a == [] {
      assert a + b == b;
    } else {
      assert (a + b)[1..] == a[1..] + b;
      Joined(Step(w, a[0]), a[1..], b);
    }
  }

  lemma CompletionRaised(w: World, u: World, t: nat) returns (events: seq<Event>)
    requires t in w.threads && w.threads[t].stage.Running? && Took(w, u, t, true)
    ensures events == [CompleteRaises(t)] && ValidRun(u, events) && Took(w, After(u, events), t, false)
  {
    RunOn(u, [], CompleteRaises(t));
    events := [] + [CompleteRaises(t)];
  }

  /** An attempt at a batch always goes through, whatever its runner and the coordinator do,
      and leaves exactly this. */
  lemma AttemptGoesThrough(w: World, t: nat, ran: bool, completed: bool, retried: bool)
    requires t in w.threads && w.threads[t].stage.Running?
    ensures ValidRun(w, BatchEvents(t, ran, completed, retried))
    ensures AttemptEnds(w, After(w, BatchEvents(t, ran, completed, retried)), t, OutcomeOf(ran, completed, retried))
  {
    var head := RunnerThenTake(w, t, ran);
    var u := After(w, head);
    var mid: seq<Event> := [];
    if ran && !completed {
      mid := CompletionRaised(w, u, t);
    }
    var tail: seq<Event>;
    if OutcomeOf(ran, completed, retried).Aborted? {
      tail := AbortedTail(w, After(u, mid), t, false);
    } else {
      tail := SettledTail(w, After(u, mid), t, ran && completed);
    }
    Joined(u, mid, tail);
    Joined(w, head, mid + tail);
    assert head + (mid + tail) == BatchEvents(t, ran, completed, retried);
  }

  /** Opening a turn takes all pending admissions of the contact, reviews alone and the rest
      together, and leaves everything else. */
  lemma TurnOpens(w: World, t: nat) returns (batches: seq<Batch>)
    requires t in w.threads && w.threads[t].stage.AtTop? && Held(w.slots.pending, w.threads[t].contact) != []
    ensures batches != [] && Flatten(batches) == Held(w.slots.pending, w.threads[t].contact)
    ensures forall b :: b in batches ==> b != [] && forall a :: a in b && a.review ==> b == [a]
    ensures AfterPop(w, t).threads == w.threads[t := w.threads[t].(stage := Running(batches[0], batches[1..]))]
    ensures AfterPop(w, t).slots == w.slots.(pending := w.slots.pending - {w.threads[t].contact})
    ensures AfterPop(w, t).settled == w.settled
  {
    batches := Split(Held(w.slots.pending, w.threads[t].contact));
    SplitLosesNothing(Held(w.slots.pending, w.threads[t].contact));
  }

  /** The pending message of a contact whose thread was started goes through in one clean
      attempt: it ends up completed, with whatever was injected meanwhile. */
  lemma ATurnCompletesItsMessage(limit: nat, events: seq<Event>, t: nat) returns (turn: seq<Event>)
    requires ValidRun(Idle(limit), events) && Enabled(After(Idle(limit), events), Pop(t))
    requires var w := After(Idle(limit), events); Held(w.slots.pending, w.threads[t].contact) != []
    ensures var w := After(Idle(limit), events);
            && turn == [Pop(t)] + BatchEvents(t, true, true, true) && ValidRun(w, turn)
            && forall a :: a in Held(w.slots.pending, w.threads[t].contact) ==>
                 IsSettled(After(w, turn), a.token, Completed)
  {
    var w := After(Idle(limit), events);
    var contact := w.threads[t].contact;
    TurnsStartFromOneAdmission(limit, events, contact);
    var batches := TurnOpens(w, t);
    assert batches[0] in batches;
    var u := AfterPop(w, t);
    OneBatch(batches, Held(w.slots.pending, contact));
    RunOn(w, [], Pop(t));
    assert [] + [Pop(t)] == [Pop(t)];
    AttemptGoesThrough(u, t, true, true, true);
    Joined(w, [Pop(t)], BatchEvents(t, true, true, true));
    turn := [Pop(t)] + BatchEvents(t, true, true, true);
    forall a | a in Held(w.slots.pending, contact) ensures IsSettled(After(w, turn), a.token, Completed) {
      var all := batches[0] + Held(u.slots.injected, contact);
      assert a in all && a.token in Tokens(all);
      RecordSays(u.settled, all, Completed, a.token);
    }
  }

  lemma OneBatch(batches: seq<Batch>, work: Batch)
    requires batches != [] && batches[0] != [] && Flatten(batches) == work && |work| <= 1
    ensures batches[0] == work
  {
    assert |Flatten(batches)| == |batches[0]| + |Flatten(batches[1..])|;
    assert work == batches[0] + Flatten(batches[1..]);
  }

  // ------------------------------------------------------------ one whole message

  /** Adding one more event to a run, with the world it leads to. */
  lemma RunOnTo(w: World, events: seq<Event>, e: Event, t: World) returns (more: seq<Event>)
    requires ValidRun(w, events) && Enabled(After(w, events), e) && Step(After(w, events), e) == t
    ensures more == events + [e] && ValidRun(w, more) && After(w, more) == t
  {
    RunOn(w, events, e);
    more := events + [e];
  }

  /** The world once a call has registered and started the thread of one new message. */
  function Waiting(w: World, k: nat, a: Admission): World {
    var t := w.slots.nextThread;
    w.(slots := w.slots.(claimed := w.slots.claimed + 1,
                         pending := w.slots.pending[a.contact := Held(w.slots.pending, a.contact) + [a]],
                         running := w.slots.running + {a.contact},
                         threads := w.slots.threads[t := a.contact],
                         nextThread := t + 1),
       threads := w.threads[t := Thread(a.contact, AtTop)],
       unstarted := w.unstarted - {t},
       owner := w.owner[a.token := InPending(a.contact)],
       calls := w.calls[k := Starting])
  }

  /** Submitting it: registered, not started yet. */
  lemma MessageRegisters(w: World, w1: World, k: nat, a: Admission)
    requires w1 == w.(calls := w.calls[k := Collecting])
    requires a.contact !in w.slots.running && w.slots.claimed < w.slots.limit
    ensures var t, u := w.slots.nextThread, WithScheduled(w1, k, a, true);
            && InLoop(u, k) && t in u.unstarted && u.unstarted[t] == k
            && u.(calls := u.calls[k := Starting], unstarted := u.unstarted - {t}) == Waiting(w, k, a)
  {
    var t, u := w.slots.nextThread, WithScheduled(w1, k, a, true);
    assert u.unstarted - {t} == w.unstarted - {t} && u.calls[k := Starting] == w.calls[k := Starting];
  }

  lemma MessageIsCollected(w: World, k: nat, a: Admission) returns (events: seq<Event>)
    requires k !in w.calls && Unissued(w, a.token)
    requires !w.slots.closed && w.slots.claimed < w.slots.limit
    ensures events == [OpenSubmit(k), Submit(k, a, true)] && ValidRun(w, events)
    ensures After(w, events) == WithScheduled(w.(calls := w.calls[k := Collecting]), k, a, true)
  {
    var w1 := w.(calls := w.calls[k := Collecting]);
    events := RunOnTo(w, [], OpenSubmit(k), w1);
    events := RunOnTo(w, events, Submit(k, a, true), WithScheduled(w1, k, a, true));
  }

  lemma CallStarts(w: World, k: nat, t: nat) returns (events: seq<Event>)
    requires InLoop(w, k) && t in w.unstarted && w.unstarted[t] == k
    ensures events == [CloseSubmit(k), Start(t)] && ValidRun(w, events)
    ensures After(w, events) == w.(calls := w.calls[k := Starting], unstarted := w.unstarted - {t})
  {
    var w1 := w.(calls := w.calls[k := Starting]);
    events := RunOnTo(w, [], CloseSubmit(k), w1);
    events := RunOnTo(w, events, Start(t), w1.(unstarted := w.unstarted - {t}));
  }

  /** A new message to an idle contact is registered and its thread started. */
  lemma MessageStarts(w: World, k: nat, a: Admission) returns (events: seq<Event>)
    requires k !in w.calls && Unissued(w, a.token) && a.contact !in w.slots.running
    requires !w.slots.closed && w.slots.claimed < w.slots.limit
    ensures events == [OpenSubmit(k), Submit(k, a, true)] + [CloseSubmit(k), Start(w.slots.nextThread)]
    ensures ValidRun(w, events) && After(w, events) == Waiting(w, k, a)
  {
    var first := MessageIsCollected(w, k, a);
    MessageRegisters(w, w.(calls := w.calls[k := Collecting]), k, a);
    var second := CallStarts(After(w, first), k, w.slots.nextThread);
    Joined(w, first, second);
    events := first + second;
  }

  /** Finding no work the thread takes its contact out of the dispatcher. */
  lemma LastPop(w: World, t: nat)
    requires t in w.threads && w.threads[t].stage == AtTop
    requires Held(w.slots.pending, w.threads[t].contact) == [] && Held(w.slots.injected, w.threads[t].contact) == []
    ensures var v, c := AfterPop(w, t), w.threads[t].contact;
            && v.threads == w.threads[t := Thread(c, LastReplay)]
            && v.settled == w.settled && v.unstarted == w.unstarted
            && v.slots == w.slots.(injected := w.slots.injected - {c}, running := w.slots.running - {c},
                                   threads := w.slots.threads - {t})
  {
  }

  /** The thread is gone again. */
  ghost predicate ThreadGone(v: World, end: World, contact: string, t: nat) {
    && end.threads == v.threads - {t} && end.settled == v.settled
    && end.slots == v.slots.(injected := v.slots.injected - {contact}, running := v.slots.running - {contact},
                             threads := v.slots.threads - {t})
  }

  lemma LastLook(w: World, t: nat) returns (events: seq<Event>)
    requires t in w.threads && w.threads[t].stage == Replaying([]) && t !in w.unstarted
    requires Held(w.slots.pending, w.threads[t].contact) == [] && Held(w.slots.injected, w.threads[t].contact) == []
    ensures events == [ReplayDone(t), Pop(t)] && ValidRun(w, events)
    ensures var v, c := After(w, events), w.threads[t].contact;
            && v.threads == w.threads[t := Thread(c, LastReplay)] && v.settled == w.settled
            && v.slots == w.slots.(injected := w.slots.injected - {c}, running := w.slots.running - {c},
                                   threads := w.slots.threads - {t})
  {
    var w1 := Moved(w, t, AtTop);
    events := RunOnTo(w, [], ReplayDone(t), w1);
    LastPop(w1, t);
    events := RunOnTo(w, events, Pop(t), AfterPop(w1, t));
  }

  /** A thread with nothing left takes its last look and goes. */
  lemma ThreadEnds(w: World, t: nat) returns (events: seq<Event>)
    requires t in w.threads && w.threads[t].stage == Replaying([]) && t !in w.unstarted
    requires Held(w.slots.pending, w.threads[t].contact) == [] && Held(w.slots.injected, w.threads[t].contact) == []
    ensures events == [ReplayDone(t), Pop(t), Exit(t)] && ValidRun(w, events)
    ensures ThreadGone(w, After(w, events), w.threads[t].contact, t)
  {
    events := LastLook(w, t);
    var w2 := After(w, events);
    assert w2.threads - {t} == w.threads - {t};
    events := RunOnTo(w, events, Exit(t), w2.(threads := w.threads - {t}));
  }

  /** A message gone through: it, and whatever an earlier turn of the contact had stranded, is
      completed, and the dispatcher is as it was, but for the number of the next thread. */
  ghost predicate GoneThrough(w: World, v: World, a: Admission) {
    var left := Held(w.slots.injected, a.contact);
    && IsSettled(v, a.token, Completed) && (forall b :: b in left ==> IsSettled(v, b.token, Completed))
    && v.threads == w.threads
    && v.slots == w.slots.(pending := w.slots.pending - {a.contact}, injected := w.slots.injected - {a.contact},
                           claimed := if w.slots.claimed < |left| then 0 else w.slots.claimed - |left|,
                           nextThread := w.slots.nextThread + 1)
  }

  lemma RecordedAll(w: World, v: World, batch: Batch)
    requires v.settled == Record(w.settled, batch, Completed)
    ensures forall a :: a in batch ==> IsSettled(v, a.token, Completed)
  {
    forall a | a in batch ensures IsSettled(v, a.token, Completed) {
      assert a.token in Tokens(batch);
      RecordSays(w.settled, batch, Completed, a.token);
    }
  }

  /** Opening the turn of one waiting message. */
  lemma MessageOpens(u: World, t: nat, a: Admission)
    requires t in u.threads && u.threads[t] == Thread(a.contact, AtTop)
    requires Held(u.slots.pending, a.contact) == [a]
    ensures var v := AfterPop(u, t);
            && v.threads == u.threads[t := Thread(a.contact, Running([a], []))]
            && v.slots == u.slots.(pending := u.slots.pending - {a.contact})
            && v.settled == u.settled && v.unstarted == u.unstarted
  {
    assert Split([a]) == [[a]];
    var batches := TurnOpens(u, t);
  }

  /** What the turn of one message leaves. */
  ghost predicate TurnDone(u: World, v: World, t: nat, a: Admission) {
    var all := [a] + Held(u.slots.injected, a.contact);
    && v.settled == Record(u.settled, all, Completed) && v.unstarted == u.unstarted
    && v.threads == u.threads[t := Thread(a.contact, Replaying([]))]
    && v.slots == u.slots.(pending := u.slots.pending - {a.contact}, injected := u.slots.injected - {a.contact},
                           claimed := if u.slots.claimed < |all| then 0 else u.slots.claimed - |all|)
  }

  lemma OpenedThenEnded(u: World, w: World, v: World, t: nat, a: Admission)
    requires w.threads == u.threads[t := Thread(a.contact, Running([a], []))]
    requires w.slots == u.slots.(pending := u.slots.pending - {a.contact})
    requires w.settled == u.settled && w.unstarted == u.unstarted && AttemptEnds(w, v, t, Cleanly)
    ensures TurnDone(u, v, t, a)
  {
    assert v.threads == u.threads[t := Thread(a.contact, Replaying([]))];
  }

  /** The one turn of the new thread: it takes the message, runs it and settles it. */
  lemma MessageTurn(u: World, t: nat, a: Admission) returns (events: seq<Event>)
    requires t in u.threads && u.threads[t] == Thread(a.contact, AtTop) && t !in u.unstarted
    requires Held(u.slots.pending, a.contact) == [a]
    ensures events == [Pop(t)] + BatchEvents(t, true, true, true) && ValidRun(u, events)
    ensures TurnDone(u, After(u, events), t, a)
  {
    var first := RunOnTo(u, [], Pop(t), AfterPop(u, t));
    MessageOpens(u, t, a);
    AttemptGoesThrough(AfterPop(u, t), t, true, true, true);
    Joined(u, first, BatchEvents(t, true, true, true));
    events := first + BatchEvents(t, true, true, true);
    OpenedThenEnded(u, AfterPop(u, t), After(u, events), t, a);
  }

  lemma ThroughSettles(w: World, end: World, a: Admission)
    requires end.settled == Record(w.settled, [a] + Held(w.slots.injected, a.contact), Completed)
    ensures IsSettled(end, a.token, Completed)
    ensures forall b :: b in Held(w.slots.injected, a.contact) ==> IsSettled(end, b.token, Completed)
  {
    var all := [a] + Held(w.slots.injected, a.contact);
    RecordedAll(w, end, all);
    assert a in all && forall b :: b in Held(w.slots.injected, a.contact) ==> b in all;
  }

  lemma ThroughSlots(w: World, v: World, end: World, k: nat, a: Admission)
    requires w.slots.nextThread !in w.slots.threads && a.contact !in w.slots.running
    requires TurnDone(Waiting(w, k, a), v, w.slots.nextThread, a) && ThreadGone(v, end, a.contact, w.slots.nextThread)
    ensures var left := Held(w.slots.injected, a.contact);
            end.slots == w.slots.(pending := w.slots.pending - {a.contact}, injected := w.slots.injected - {a.contact},
                                  claimed := if w.slots.claimed < |left| then 0 else w.slots.claimed - |left|,
                                  nextThread := w.slots.nextThread + 1)
  {
    SlotsAgain(w.slots, Waiting(w, k, a).slots, end.slots, a, w.slots.nextThread);
  }

  lemma ThroughThreads(w: World, v: World, end: World, k: nat, a: Admission)
    requires w.slots.nextThread !in w.threads
    requires TurnDone(Waiting(w, k, a), v, w.slots.nextThread, a) && ThreadGone(v, end, a.contact, w.slots.nextThread)
    ensures end.threads == w.threads
  {
    ThreadAgain(w.threads, w.slots.nextThread, Thread(a.contact, AtTop), Thread(a.contact, Replaying([])));
  }

  /** Registered, run and gone: the three parts of a message's way. */
  lemma MessageIsThrough(w: World, v: World, end: World, k: nat, a: Admission)
    requires w.slots.nextThread !in w.threads && w.slots.nextThread !in w.slots.threads && a.contact !in w.slots.running
    requires TurnDone(Waiting(w, k, a), v, w.slots.nextThread, a) && ThreadGone(v, end, a.contact, w.slots.nextThread)
    ensures GoneThrough(w, end, a)
  {
    ThroughSettles(w, end, a);
    ThroughSlots(w, v, end, k, a);
    ThroughThreads(w, v, end, k, a);
  }

  lemma ThreadAgain(threads: map<nat, Thread>, t: nat, first: Thread, last: Thread)
    requires t !in threads
    ensures threads[t := first][t := last] - {t} == threads
  {
  }

  /** The fields are as before the message came, less what had been stranded. */
  lemma SlotsAgain(s: Slots, u: Slots, end: Slots, a: Admission, t: nat)
    requires t !in s.threads && a.contact !in s.running && t == s.nextThread
    requires u == s.(claimed := s.claimed + 1, pending := s.pending[a.contact := Held(s.pending, a.contact) + [a]],
                     running := s.running + {a.contact}, threads := s.threads[t := a.contact], nextThread := t + 1)
    requires var c := |[a] + Held(u.injected, a.contact)|;
             end == u.(pending := u.pending - {a.contact}, injected := u.injected - {a.contact} - {a.contact},
                       claimed := if u.claimed < c then 0 else u.claimed - c,
                       running := u.running - {a.contact}, threads := u.threads - {t})
    ensures var left := Held(s.injected, a.contact);
            end == s.(pending := s.pending - {a.contact}, injected := s.injected - {a.contact},
                      claimed := if s.claimed < |left| then 0 else s.claimed - |left|, nextThread := t + 1)
  {
    assert u.threads - {t} == s.threads && u.running - {a.contact} == s.running;
    assert u.pending - {a.contact} == s.pending - {a.contact};
    assert u.injected - {a.contact} - {a.contact} == s.injected - {a.contact};
  }

  lemma NothingPending(w: World, contact: string)
    requires ThreadsInv(w) && CoveredInv(w) && contact !in w.slots.running
    ensures Held(w.slots.pending, contact) == []
  {
    assert contact in w.slots.pending ==> WaitsAtTop(w, contact);
  }

  lemma MessageRun(w: World, k: nat, a: Admission) returns (run: seq<Event>)
    requires ThreadsInv(w) && CoveredInv(w)
    requires k !in w.calls && Unissued(w, a.token) && a.contact !in w.slots.running
    requires !w.slots.closed && w.slots.claimed < w.slots.limit
    ensures var t := w.slots.nextThread;
            run == ([OpenSubmit(k), Submit(k, a, true)] + [CloseSubmit(k), Start(t)])
                   + ([Pop(t)] + BatchEvents(t, true, true, true)) + [ReplayDone(t), Pop(t), Exit(t)]
    ensures ValidRun(w, run) && GoneThrough(w, After(w, run), a)
  {
    NothingPending(w, a.contact);
    var start := MessageStarts(w, k, a);
    var u := After(w, start);
    var turn := MessageTurn(u, w.slots.nextThread, a);
    var v := After(u, turn);
    var end := ThreadEnds(v, w.slots.nextThread);
    Joined(w, start, turn);
    Joined(w, start + turn, end);
    MessageIsThrough(w, v, After(v, end), k, a);
    run := start + turn + end;
  }

  /** The way of one message through an open dispatcher with room, whose contact is idle: the
      call registers and starts a thread, the thread runs the message, completes it, finds
      nothing more and goes, and all slots are free again. */
  lemma AMessageGoesThrough(limit: nat, events: seq<Event>, k: nat, a: Admission) returns (run: seq<Event>)
    requires ValidRun(Idle(limit), events)
    requires var w := After(Idle(limit), events);
             && k !in w.calls && Unissued(w, a.token) && a.contact !in w.slots.running
             && !w.slots.closed && w.slots.claimed < w.slots.limit
    ensures var w := After(Idle(limit), events);
            var t := w.slots.nextThread;
            && run == ([OpenSubmit(k), Submit(k, a, true)] + [CloseSubmit(k), Start(t)])
                      + ([Pop(t)] + BatchEvents(t, true, true, true)) + [ReplayDone(t), Pop(t), Exit(t)]
            && ValidRun(w, run) && GoneThrough(w, After(w, run), a)
  {
    IdleInv(limit);
    RunKeepsInv(Idle(limit), events);
    run := MessageRun(After(Idle(limit), events), k, a);
  }
}
