/** The final-reply barrier of a long task (`core/long_task_updates.py`): prose is kept
    durably and handed to the transport only once the task's card is settled.  Each
    locked section is a step; other threads may act between any two. */
module FinalReply {
  import opened Common

  const MAX_PENDING_REPLY_ATTEMPTS := 12
  const MAX_PENDING_REPLY_CHARS := 262_144

  /** `_stable_id` over the contact, the run and the text; one lifecycle fixes the first two. */
  datatype ClientId = ClientId(text: string)

  datatype Reply = Reply(message: string, clientId: ClientId, attempts: nat)

  /** The fields of the lifecycle that decide about its reply. */
  datatype Life = Life(
    hasTask: bool,
    confirmed: bool,
    createSpec: bool,
    createAttempts: nat,
    workers: set<nat>,
    deferred: bool,
    terminal: bool,
    settleRequested: bool,
    reply: Option<Reply>,
    closed: bool,
    replySent: bool)

  /** What the barrier looked at. */
  datatype Decision = Decision(life: Life, activeWorkers: bool)

  datatype Pc =
    | Resting
    | Gathering
    | Judged(decision: Decision)
    | Settling(decision: Decision)
    | Ready(decision: Decision)
    | Sending(decision: Decision, reply: Reply)

  /** One call of the transport. */
  datatype Handed = Handed(reply: Reply, decision: Decision, life: Life)

  /** `recorded` counts the failed attempts recorded for the current or last reply. */
  datatype World = World(life: Life, pc: Pc, handed: seq<Handed>, recorded: nat)

  /** What the card service says of the task before it is completed. */
  datatype Card = TerminalCard | BlockedCard | OpenCard

  datatype SettleOutcome = Accepted | Blocked | Refused | TooEarly

  /** What a flush learns about the card while settling it: whether it is too early, what the
      card says, whether completing it succeeded, and what it says after that. */
  datatype Answers = Answers(early: bool, card: Card, completed: bool, proof: Card)

  /** `_settle_task_inner`: nothing before its time or without a confirmed task; then the
      card's own state, the completion, and the card's state again as proof. */
  function Settlement(early: bool, card: Card, completed: bool, proof: Card): SettleOutcome {
    if early then TooEarly
    else if card.TerminalCard? then Accepted
    else if card.BlockedCard? then Blocked
    else if completed || proof.TerminalCard? then Accepted
    else Refused
  }

  datatype Status = Sent | Permanent | Transient

  datatype Event =
    | QueueReply(text: string)
    | BeginFlush
    | Decide(activeWorkers: bool)
    | Look
    | Settle(answers: Answers)
    | Hand(hasSender: bool)
    | Respond(status: Status)
    | PrepareTask
    | AcceptTask
    | RefuseTask
    | JournalWorker(worker: nat)
    | DropWorker(worker: nat)
    | Defer
    | Resume
    | ObserveTerminal
    | CloseIdle
    | Crash(pause: bool)

  function Truncated(text: string): string {
    if |text| > MAX_PENDING_REPLY_CHARS then text[..MAX_PENDING_REPLY_CHARS] else text
  }

  predicate TaskRequired(l: Life) {
    l.hasTask || l.createSpec || l.createAttempts > 0
  }

  predicate Held(d: Decision) {
    TaskRequired(d.life) && (d.activeWorkers || d.life.workers != {} || d.life.deferred || !d.life.confirmed)
  }

  /** What the barrier is for. */
  predicate Barrier(l: Life) {
    !TaskRequired(l) || (l.confirmed && l.terminal && l.workers == {} && !l.deferred)
  }

  predicate Enabled(w: World, e: Event) {
    match e
    case QueueReply(_) => true
    case BeginFlush => w.pc.Resting? && w.life.reply.Some?
    case Decide(_) => w.pc.Gathering?
    case Look => w.pc.Judged?
    case Settle(_) => w.pc.Settling?
    case Hand(_) => w.pc.Ready?
    case Respond(_) => w.pc.Sending?
    case PrepareTask => true
    case AcceptTask => true
    case RefuseTask => true
    case JournalWorker(_) => true
    case DropWorker(_) => true
    case Defer => true
    case Resume => true
    case ObserveTerminal => true
    case CloseIdle => w.life.reply == None && w.life.workers == {} && !w.life.createSpec
    case Crash(_) => true
  }

  function AfterQueue(w: World, text: string): World {
    if w.life.reply.Some? then w
    else
      var message := Truncated(text);
      w.(life := w.life.(reply := Some(Reply(message, ClientId(message), 0)), settleRequested := w.life.hasTask),
         recorded := 0)
  }

  function AfterDecide(w: World, activeWorkers: bool): World {
    var d := Decision(w.life, activeWorkers);
    if Held(d) then w.(life := w.life.(settleRequested := true), pc := Resting) else w.(pc := Judged(d))
  }

  /** Whether the card is terminal is read after the lock of the decision is given back. */
  function AfterLook(w: World): World
    requires Enabled(w, Look)
  {
    var d := w.pc.decision;
    w.(pc := if TaskRequired(d.life) && !w.life.terminal then Settling(d) else Ready(d))
  }

  /** Without a confirmed task there is nothing to settle yet. */
  function Outcome(l: Life, answers: Answers): SettleOutcome {
    Settlement(answers.early || !l.hasTask || !l.confirmed, answers.card, answers.completed, answers.proof)
  }

  function AfterSettle(w: World, answers: Answers): World
    requires Enabled(w, Settle(answers))
  {
    match Outcome(w.life, answers)
    case Accepted => w.(life := w.life.(terminal := true, settleRequested := false), pc := Ready(w.pc.decision))
    case Blocked => w.(life := w.life.(deferred := true, settleRequested := true), pc := Resting)
    case Refused => w.(life := w.life.(settleRequested := true), pc := Resting)
    case TooEarly => w.(pc := Resting)
  }

  function AfterHand(w: World, hasSender: bool): World
    requires Enabled(w, Hand(hasSender))
  {
    if !hasSender || w.life.reply.None? then w.(pc := Resting)
    else
      w.(pc := Sending(w.pc.decision, w.life.reply.value),
         handed := w.handed + [Handed(w.life.reply.value, w.pc.decision, w.life)])
  }

  /** The reply after a failed attempt: one more recorded, or given up. */
  function AfterFailure(reply: Option<Reply>, status: Status): Option<Reply> {
    if reply.None? || status.Permanent? || reply.value.attempts + 1 >= MAX_PENDING_REPLY_ATTEMPTS then None
    else Some(reply.value.(attempts := reply.value.attempts + 1))
  }

  function Attempts(reply: Option<Reply>): nat {
    if reply.Some? then reply.value.attempts else 0
  }

  function AfterRespond(w: World, status: Status): World
    requires Enabled(w, Respond(status))
  {
    if w.life.reply.Some? && w.life.reply.value.clientId == w.pc.reply.clientId && status.Sent? then
      w.(life := w.life.(reply := None, replySent := true, closed := true), pc := Resting)
    else
      var left := AfterFailure(w.life.reply, status);
      w.(life := w.life.(reply := left, closed := w.life.closed || left == None), pc := Resting,
         recorded := Attempts(w.life.reply) + 1)
  }

  function Step(w: World, e: Event): World
    requires Enabled(w, e)
  {
    match e
    case QueueReply(text) => AfterQueue(w, text)
    case BeginFlush => w.(pc := Gathering)
    case Decide(activeWorkers) => AfterDecide(w, activeWorkers)
    case Look => AfterLook(w)
    case Settle(answers) => AfterSettle(w, answers)
    case Hand(hasSender) => AfterHand(w, hasSender)
    case Respond(status) => AfterRespond(w, status)
    case PrepareTask => w.(life := w.life.(hasTask := true, createSpec := true))
    case AcceptTask => w.(life := w.life.(hasTask := true, confirmed := true, createSpec := false, createAttempts := 0))
    case RefuseTask => w.(life := w.life.(createAttempts := w.life.createAttempts + 1))
    case JournalWorker(worker) => w.(life := w.life.(workers := w.life.workers + {worker}))
    case DropWorker(worker) => w.(life := w.life.(workers := w.life.workers - {worker}))
    case Defer => w.(life := w.life.(deferred := true))
    case Resume => w.(life := w.life.(deferred := false))
    case ObserveTerminal => w.(life := w.life.(terminal := true))
    case CloseIdle => w.(life := w.life.(closed := true))
    case Crash(pause) =>
      w.(pc := Resting, life := w.life.(replySent := false, deferred := w.life.deferred || (pause && w.life.reply == None)))
  }

  const FRESH := World(Life(false, false, false, 0, {}, false, false, false, None, false, false), Resting, [], 0)

  // ------------------------------------------------------------------ invariant

  /** The decision let the reply pass, and what must last of it has lasted. */
  predicate Passed(d: Decision, now: Life) {
    !Held(d) && (TaskRequired(d.life) ==> now.confirmed && now.terminal)
  }

  ghost predicate Inv(w: World) {
    && w.recorded <= MAX_PENDING_REPLY_ATTEMPTS
    && (w.life.reply.Some? ==>
          && w.life.reply.value.attempts == w.recorded < MAX_PENDING_REPLY_ATTEMPTS
          && w.life.reply.value.clientId == ClientId(w.life.reply.value.message))
    && (w.pc.Judged? ==> !Held(w.pc.decision) && (TaskRequired(w.pc.decision.life) ==> w.life.confirmed))
    && (w.pc.Settling? ==> !Held(w.pc.decision) && TaskRequired(w.pc.decision.life) && w.life.confirmed)
    && (w.pc.Ready? || w.pc.Sending? ==> Passed(w.pc.decision, w.life))
    && (!w.pc.Resting? ==> w.life.reply.Some?)
    && (w.life.confirmed ==> w.life.hasTask)
    && (w.pc.Sending? ==> w.life.reply == Some(w.pc.reply))
    && (forall h :: h in w.handed ==> Passed(h.decision, h.life) && h.reply.clientId == ClientId(h.reply.message))
  }

  predicate FlushEvent(e: Event) {
    e.QueueReply? || e.BeginFlush? || e.Decide? || e.Look? || e.Settle? || e.Hand? || e.Respond?
  }

  lemma FlushKeepsInv(w: World, e: Event)
    requires Inv(w) && Enabled(w, e) && FlushEvent(e)
    ensures Inv(Step(w, e))
  {
    match e
    case QueueReply(_) =>
    case BeginFlush =>
    case Decide(_) =>
    case Look =>
    case Settle(_) =>
    case Hand(_) =>
      if Step(w, e).pc.Sending? {
        var h := Handed(w.life.reply.value, w.pc.decision, w.life);
        assert forall x :: x in Step(w, e).handed <==> x in w.handed || x == h;
      }
    case Respond(_) =>
  }

  lemma OthersKeepInv(w: World, e: Event)
    requires Inv(w) && Enabled(w, e) && !FlushEvent(e)
    ensures Inv(Step(w, e))
  {
    match e
    case PrepareTask =>
    case AcceptTask =>
    case RefuseTask =>
    case JournalWorker(_) =>
    case DropWorker(_) =>
    case Defer =>
    case Resume =>
    case ObserveTerminal =>
    case CloseIdle =>
    case Crash(_) =>
  }

  lemma StepKeepsInv(w: World, e: Event)
    requires Inv(w) && Enabled(w, e)
    ensures Inv(Step(w, e))
  {
    if FlushEvent(e) {
      FlushKeepsInv(w, e);
    } else {
      OthersKeepInv(w, e);
    }
  }

  predicate ValidRun(w: World, events: seq<Event>)
    decreases |events|
  {
    events == [] || (Enabled(w, events[0]) && ValidRun(Step(w, events[0]), events[1..]))
  }

  function After(w: World, events: seq<Event>): World
    requires ValidRun(w, events)
    decreases |events|
  {
    if events == [] then w else After(Step(w, events[0]), events[1..])
  }

  lemma {:induction false} RunKeepsInv(w: World, events: seq<Event>)
    requires Inv(w) && ValidRun(w, events)
    ensures Inv(After(w, events))
    decreases |events|
  {
    if events != [] {
      StepKeepsInv(w, events[0]);
      RunKeepsInv(Step(w, events[0]), events[1..]);
    }
  }

  // ------------------------------------------------------------------- theorems

  /** Whatever other threads do, a reply handed to the transport passed the barrier:
      either no task was required, or it was confirmed with no workers and no deferral
      when that was decided, and is confirmed and terminal when it is handed over. */
  lemma HandedOnlyPastTheBarrier(events: seq<Event>, h: Handed)
    requires ValidRun(FRESH, events) && h in After(FRESH, events).handed
    ensures !TaskRequired(h.decision.life)
            || (&& h.decision.life.confirmed && h.decision.life.workers == {} && !h.decision.life.deferred
                && !h.decision.activeWorkers
                && h.life.confirmed && h.life.terminal)
    ensures h.reply.clientId == ClientId(h.reply.message)
  {
    RunKeepsInv(FRESH, events);
  }

  // ------------------------------------------- from the decision to the hand-over

  /** Workers journaled and not dropped since, over a stretch of events. */
  function WorkersLeft(before: set<nat>, events: seq<Event>): set<nat>
    decreases |events|
  {
    if events == [] then before
    else
      WorkersLeft(match events[0]
                  case JournalWorker(worker) => before + {worker}
                  case DropWorker(worker) => before - {worker}
                  case _ => before, events[1..])
  }

  /** Deferred and not resumed since. */
  function DeferralLeft(before: bool, events: seq<Event>): bool
    decreases |events|
  {
    if events == [] then before
    else DeferralLeft(if events[0].Defer? then true else if events[0].Resume? then false else before, events[1..])
  }

  predicate MakesRequired(e: Event) {
    e.PrepareTask? || e.AcceptTask? || e.RefuseTask?
  }

  /** When a task is required by the hand-over: no worker, journaled before the decision
      or since, is left, no deferral is left standing, and a task that came up only since
      then was confirmed and is done. */
  ghost predicate Upheld(decided: Life, between: seq<Event>) {
    TaskRequired(decided) || (exists e :: e in between && MakesRequired(e)) ==>
      && WorkersLeft(decided.workers, between) == {} && !DeferralLeft(decided.deferred, between)
      && (TaskRequired(decided) || (AcceptTask in between && (decided.terminal || ObserveTerminal in between)))
  }

  /** The answers settle the card: it is done, or gets done, in time. */
  predicate SettlesTheCard(a: Answers) {
    !a.early && (a.card.TerminalCard? || (a.card.OpenCard? && (a.completed || a.proof.TerminalCard?)))
  }

  /** The event leaves a flush that has passed its decision where it is. */
  predicate Continues(e: Event) {
    !e.Decide? && !e.BeginFlush? && !e.Hand? && !e.Respond? && !e.Crash? && (e.Settle? ==> SettlesTheCard(e.answers))
  }

  predicate Decided(pc: Pc) {
    pc.Judged? || pc.Settling? || pc.Ready?
  }

  /** The rest of the flush has no card to settle. */
  predicate NothingToSettle(pc: Pc) {
    pc.Ready? || (pc.Judged? && !TaskRequired(pc.decision.life))
  }

  ghost predicate NoDecision(events: seq<Event>) {
    forall e :: e in events ==> !e.Decide?
  }

  lemma {:induction false} UndecidedStays(w: World, events: seq<Event>)
    requires ValidRun(w, events) && NoDecision(events) && !Decided(w.pc)
    ensures !Decided(After(w, events).pc)
    decreases |events|
  {
    if events != [] {
      assert events[0] in events;
      UndecidedStays(Step(w, events[0]), events[1..]);
    }
  }

  lemma OneStepOn(w: World, e: Event)
    requires Inv(w) && Enabled(w, e) && Decided(w.pc) && !e.Decide?
    ensures Continues(e) <==> Decided(Step(w, e).pc)
    ensures Continues(e) ==> Step(w, e).pc.decision == w.pc.decision && Step(w, e).handed == w.handed
    ensures Continues(e) && NothingToSettle(w.pc) ==> NothingToSettle(Step(w, e).pc) && !e.Settle?
  {
    match e
    case QueueReply(_) =>
    case BeginFlush =>
    case Decide(_) =>
    case Look =>
    case Settle(_) =>
    case Hand(_) =>
    case Respond(_) =>
    case PrepareTask =>
    case AcceptTask =>
    case RefuseTask =>
    case JournalWorker(_) =>
    case DropWorker(_) =>
    case Defer =>
    case Resume =>
    case ObserveTerminal =>
    case CloseIdle =>
    case Crash(_) =>
  }

  /** What a step of the rest of the flush or of another thread does to the fields the
      barrier reads. */
  lemma FieldsOn(w: World, e: Event)
    requires Inv(w) && Enabled(w, e) && Continues(e)
    ensures var l, t := w.life, Step(w, e).life;
            && t.workers == WorkersLeft(l.workers, [e])
            && t.deferred == DeferralLeft(l.deferred, [e])
            && t.confirmed == (l.confirmed || e == AcceptTask)
            && t.terminal == (l.terminal || e == ObserveTerminal || e.Settle?)
            && (TaskRequired(t) <==> TaskRequired(l) || MakesRequired(e))
  {
    match e
    case QueueReply(_) =>
    case Look =>
    case Settle(_) =>
    case PrepareTask =>
    case AcceptTask =>
    case RefuseTask =>
    case JournalWorker(_) =>
    case DropWorker(_) =>
    case Defer =>
    case Resume =>
    case ObserveTerminal =>
    case CloseIdle =>
  }

  lemma FoldFirst(workers: set<nat>, deferred: bool, events: seq<Event>)
    requires events != []
    ensures WorkersLeft(workers, events) == WorkersLeft(WorkersLeft(workers, [events[0]]), events[1..])
    ensures DeferralLeft(deferred, events) == DeferralLeft(DeferralLeft(deferred, [events[0]]), events[1..])
  {
    assert [events[0]][1..] == [];
  }

  /** The fields the barrier reads, at the end of the stretch, from its events. */
  lemma {:induction false} FieldsAlong(w: World, events: seq<Event>)
    requires Inv(w) && ValidRun(w, events) && NoDecision(events) && Decided(w.pc) && Decided(After(w, events).pc)
    ensures var l, t := w.life, After(w, events).life;
            && t.workers == WorkersLeft(l.workers, events)
            && t.deferred == DeferralLeft(l.deferred, events)
            && t.confirmed == (l.confirmed || AcceptTask in events)
            && t.terminal == (l.terminal || ObserveTerminal in events || exists e :: e in events && e.Settle?)
            && (TaskRequired(t) <==> TaskRequired(l) || exists e :: e in events && MakesRequired(e))
    ensures After(w, events).pc.decision == w.pc.decision && After(w, events).handed == w.handed
    ensures NothingToSettle(w.pc) ==> forall e :: e in events ==> !e.Settle?
    decreases |events|
  {
    if events != [] {
      var e := events[0];
      assert e in events;
      OneStepOn(w, e);
      if !Continues(e) {
        UndecidedStays(Step(w, e), events[1..]);
      }
      FieldsOn(w, e);
      FoldFirst(w.life.workers, w.life.deferred, events);
      StepKeepsInv(w, e);
      FieldsAlong(Step(w, e), events[1..]);
      assert forall x :: x in events <==> x == e || x in events[1..];
    }
  }

  /** One hand-over of a run: the run up to its decision, the events in between, and the
      hand-over itself. */
  ghost predicate HandedAfter(h: Handed, before: seq<Event>, active: bool, between: seq<Event>) {
    && ValidRun(FRESH, before) && Enabled(After(FRESH, before), Decide(active))
    && h.decision == Decision(After(FRESH, before).life, active)
    && var w := Step(After(FRESH, before), Decide(active));
       && ValidRun(w, between) && NoDecision(between)
       && After(w, between).pc == Ready(h.decision) && h.life == After(w, between).life
  }

  /** The barrier still holds when the reply is handed over exactly when nothing came in
      between that undoes it, for every reply handed over in any run. */
  lemma UpheldExactly(h: Handed, before: seq<Event>, active: bool, between: seq<Event>)
    requires HandedAfter(h, before, active, between)
    ensures Barrier(h.life) <==> Upheld(h.decision.life, between)
  {
    RunKeepsInv(FRESH, before);
    var at := After(FRESH, before);
    var w := Step(at, Decide(active));
    StepKeepsInv(at, Decide(active));
    if !Decided(w.pc) {
      UndecidedStays(w, between);
    }
    FieldsAlong(w, between);
    RunKeepsInv(w, between);
    assert w.life == at.life;
  }

  ghost predicate PartOf(events: seq<Event>, before: seq<Event>, active: bool, between: seq<Event>) {
    before + [Decide(active)] + between + [Hand(true)] <= events
  }

  lemma {:induction false} PrefixRuns(w: World, a: seq<Event>, b: seq<Event>)
    requires ValidRun(w, a + b)
    ensures ValidRun(w, a) && ValidRun(After(w, a), b) && After(w, a + b) == After(After(w, a), b)
    decreases |a|
  {
    if a == [] {
      assert a + b == b;
    } else {
      assert (a + b)[1..] == a[1..] + b;
      PrefixRuns(Step(w, a[0]), a[1..], b);
    }
  }

  /** A decided flush stems from its last decision. */
  lemma {:induction false} LastDecision(events: seq<Event>) returns (before: seq<Event>, active: bool, between: seq<Event>)
    requires ValidRun(FRESH, events) && Decided(After(FRESH, events).pc)
    ensures events == before + [Decide(active)] + between && NoDecision(between)
    ensures ValidRun(FRESH, before) && Enabled(After(FRESH, before), Decide(active))
    ensures ValidRun(Step(After(FRESH, before), Decide(active)), between)
    ensures After(FRESH, events) == After(Step(After(FRESH, before), Decide(active)), between)
    ensures After(FRESH, events).pc.decision == Decision(After(FRESH, before).life, active)
    decreases |events|
  {
    assert events != [];
    var front, e := events[..|events| - 1], events[|events| - 1];
    assert events == front + [e];
    PrefixRuns(FRESH, front, [e]);
    var w := After(FRESH, front);
    assert After(w, [e]) == After(Step(w, e), []) by { assert [e][1..] == []; }
    if e.Decide? {
      before, active, between := front, e.activeWorkers, [];
      assert events == before + [Decide(active)] + [];
    } else {
      if !Decided(w.pc) {
        UndecidedStays(w, [e]);
      }
      RunKeepsInv(FRESH, front);
      OneStepOn(w, e);
      var between';
      before, active, between' := LastDecision(front);
      between := between' + [e];
      RunSnoc(Step(After(FRESH, before), Decide(active)), between', e);
      assert events == before + [Decide(active)] + between;
    }
  }

  /** Every reply ever handed over was handed over after a decision of its own. */
  lemma {:induction false} EveryHandOverIsDecided(events: seq<Event>, h: Handed)
    returns (before: seq<Event>, active: bool, between: seq<Event>)
    requires ValidRun(FRESH, events) && h in After(FRESH, events).handed
    ensures HandedAfter(h, before, active, between) && PartOf(events, before, active, between)
    decreases |events|
  {
    assert events != [];
    var front, e := events[..|events| - 1], events[|events| - 1];
    assert events == front + [e];
    PrefixRuns(FRESH, front, [e]);
    var w := After(FRESH, front);
    assert After(w, [e]) == After(Step(w, e), []) by { assert [e][1..] == []; }
    if h in w.handed {
      before, active, between := EveryHandOverIsDecided(front, h);
    } else {
      HandsThePendingReply(w, e);
      before, active, between := LastDecision(front);
      assert events == before + [Decide(active)] + between + [Hand(true)];
    }
  }

  /** Whatever other threads do: at the hand-over of any reply the barrier holds if and
      only if no task is required by then, or no worker journaled before the decision or
      since is left, no deferral is left standing, and a task that came up only since the
      decision is confirmed and done. */
  lemma BarrierAtHandOver(events: seq<Event>, h: Handed)
    requires ValidRun(FRESH, events) && h in After(FRESH, events).handed
    ensures exists before, active, between ::
              HandedAfter(h, before, active, between) && PartOf(events, before, active, between)
    ensures forall before, active, between :: HandedAfter(h, before, active, between) ==>
              (Barrier(h.life) <==> Upheld(h.decision.life, between))
  {
    var found, active, between := EveryHandOverIsDecided(events, h);
    forall before, active, between | HandedAfter(h, before, active, between)
      ensures Barrier(h.life) <==> Upheld(h.decision.life, between)
    {
      UpheldExactly(h, before, active, between);
    }
  }

  // ---------------------------------------------------------- why a card is terminal

  /** A terminal action is observed, or a settlement in time finds the card done or gets it
      done. */
  predicate FinishesTheCard(w: World, e: Event) {
    || e.ObserveTerminal?
    || (e.Settle? && w.life.hasTask && w.life.confirmed && SettlesTheCard(e.answers))
  }

  predicate Finished(w: World, events: seq<Event>)
    requires ValidRun(w, events)
    decreases |events|
  {
    events != [] && (FinishesTheCard(w, events[0]) || Finished(Step(w, events[0]), events[1..]))
  }

  lemma OnlyFinishingFlush(w: World, e: Event)
    requires Enabled(w, e) && FlushEvent(e)
    ensures Step(w, e).life.terminal <==> w.life.terminal || FinishesTheCard(w, e)
  {
    match e
    case QueueReply(_) =>
    case BeginFlush =>
    case Decide(_) =>
    case Look =>
    case Settle(_) =>
    case Hand(_) =>
    case Respond(_) =>
  }

  lemma OnlyFinishing(w: World, e: Event)
    requires Enabled(w, e)
    ensures Step(w, e).life.terminal <==> w.life.terminal || FinishesTheCard(w, e)
  {
    if FlushEvent(e) {
      OnlyFinishingFlush(w, e);
    } else {
      OnlyFinishingOther(w, e);
    }
  }

  lemma OnlyFinishingOther(w: World, e: Event)
    requires Enabled(w, e) && !FlushEvent(e)
    ensures Step(w, e).life.terminal <==> w.life.terminal || FinishesTheCard(w, e)
  {
    match e
    case PrepareTask =>
    case AcceptTask =>
    case RefuseTask =>
    case JournalWorker(_) =>
    case DropWorker(_) =>
    case Defer =>
    case Resume =>
    case ObserveTerminal =>
    case CloseIdle =>
    case Crash(_) =>
  }

  lemma {:induction false} TerminalAlong(w: World, events: seq<Event>)
    requires ValidRun(w, events)
    ensures After(w, events).life.terminal <==> w.life.terminal || Finished(w, events)
    decreases |events|
  {
    if events != [] {
      OnlyFinishing(w, events[0]);
      TerminalAlong(Step(w, events[0]), events[1..]);
    }
  }

  /** The lifecycle takes its card for terminal exactly when that was observed or brought
      about; so every reply handed over under a required task follows an observed terminal
      action, a card found terminal, or a completion that succeeded or proved done. */
  lemma HandedOnlyWhenFinished(events: seq<Event>, h: Handed)
    requires ValidRun(FRESH, events) && h in After(FRESH, events).handed
    ensures After(FRESH, events).life.terminal <==> Finished(FRESH, events)
    ensures TaskRequired(h.decision.life) ==>
              exists front :: front + [Hand(true)] <= events && ValidRun(FRESH, front)
                              && After(FRESH, front).life == h.life && Finished(FRESH, front)
  {
    TerminalAlong(FRESH, events);
    if TaskRequired(h.decision.life) {
      var before, active, between := EveryHandOverIsDecided(events, h);
      var front := before + [Decide(active)] + between;
      DecidedRun(h, before, active, between);
      HandedOnlyPastTheBarrier(events, h);
      TerminalAlong(FRESH, front);
    }
  }

  lemma DecidedRun(h: Handed, before: seq<Event>, active: bool, between: seq<Event>)
    requires HandedAfter(h, before, active, between)
    ensures var front := before + [Decide(active)] + between;
            ValidRun(FRESH, front) && After(FRESH, front).life == h.life
  {
    RunSnoc(FRESH, before, Decide(active));
    Joined(FRESH, before + [Decide(active)], between);
  }

  // ------------------------------------------------------- the four ways it can fail

  lemma Then(w: World, e: Event, rest: seq<Event>)
    requires Enabled(w, e) && ValidRun(Step(w, e), rest)
    ensures ValidRun(w, [e] + rest) && After(w, [e] + rest) == After(Step(w, e), rest)
  {
    assert ([e] + rest)[1..] == rest;
  }

  lemma Extended(events: seq<Event>, e: Event) returns (longer: seq<Event>)
    requires ValidRun(FRESH, events) && Enabled(After(FRESH, events), e)
    ensures ValidRun(FRESH, longer) && After(FRESH, longer) == Step(After(FRESH, events), e)
  {
    RunSnoc(FRESH, events, e);
    longer := events + [e];
  }

  /** A confirmed task, its reply queued, and the card about to be settled. */
  lemma AboutToSettle() returns (events: seq<Event>)
    ensures ValidRun(FRESH, events)
    ensures var w := After(FRESH, events);
            w.pc.Settling? && w.life.hasTask && w.life.confirmed && w.life.reply.Some? && w.handed == []
  {
    events := [];
    events := Extended(events, PrepareTask);
    events := Extended(events, AcceptTask);
    events := Extended(events, QueueReply("done"));
    events := Extended(events, BeginFlush);
    events := Extended(events, Decide(false));
    events := Extended(events, Look);
  }

  /** A worker is journaled while the card is being settled. */
  lemma WorkerSlipsIn() returns (events: seq<Event>)
    ensures ValidRun(FRESH, events)
    ensures |After(FRESH, events).handed| == 1 && After(FRESH, events).handed[0].life.workers != {}
    ensures !Barrier(After(FRESH, events).handed[0].life)
  {
    events := AboutToSettle();
    events := Extended(events, JournalWorker(7));
    assert 7 in After(FRESH, events).life.workers;
    events := Extended(events, Settle(Answers(false, OpenCard, true, TerminalCard)));
    events := Extended(events, Hand(true));
  }

  /** The task is deferred while the card is being settled. */
  lemma DeferralSlipsIn() returns (events: seq<Event>)
    ensures ValidRun(FRESH, events)
    ensures |After(FRESH, events).handed| == 1 && After(FRESH, events).handed[0].life.deferred
    ensures !Barrier(After(FRESH, events).handed[0].life)
  {
    events := AboutToSettle();
    events := Extended(events, Defer);
    events := Extended(events, Settle(Answers(false, OpenCard, true, TerminalCard)));
    events := Extended(events, Hand(true));
  }

  /** No task was required at the decision, and one is prepared before the hand-over. */
  lemma TaskSlipsIn() returns (events: seq<Event>)
    ensures ValidRun(FRESH, events)
    ensures |After(FRESH, events).handed| == 1
    ensures var l := After(FRESH, events).handed[0].life; l.workers == {} && !l.deferred && !Barrier(l)
  {
    events := [];
    events := Extended(events, QueueReply("done"));
    events := Extended(events, BeginFlush);
    events := Extended(events, Decide(false));
    events := Extended(events, Look);
    events := Extended(events, PrepareTask);
    events := Extended(events, Hand(true));
  }

  /** A worker journaled for the card of another task, and a flush that needs no task. */
  lemma PassedWithAWorker() returns (events: seq<Event>)
    ensures ValidRun(FRESH, events)
    ensures var w := After(FRESH, events);
            && w.pc.Ready? && !TaskRequired(w.pc.decision.life) && w.pc.decision.life.workers == {7}
            && w.life.workers == {7} && !w.life.deferred && w.life.reply.Some? && w.handed == []
  {
    events := [];
    events := Extended(events, JournalWorker(7));
    events := Extended(events, QueueReply("done"));
    events := Extended(events, BeginFlush);
    events := Extended(events, Decide(false));
    events := Extended(events, Look);
  }

  /** That worker is still pending when a task was prepared, confirmed and done since. */
  lemma EarlierWorkerStays() returns (events: seq<Event>)
    ensures ValidRun(FRESH, events)
    ensures |After(FRESH, events).handed| == 1
    ensures var h := After(FRESH, events).handed[0];
            && !TaskRequired(h.decision.life) && h.decision.life.workers != {}
            && h.life.confirmed && h.life.terminal && !h.life.deferred && !Barrier(h.life)
  {
    events := PassedWithAWorker();
    events := Extended(events, PrepareTask);
    events := Extended(events, AcceptTask);
    events := Extended(events, ObserveTerminal);
    events := Extended(events, Hand(true));
  }

  /** The reply stays the same one, apart from its attempts. */
  predicate SameReply(before: Option<Reply>, after: Option<Reply>) {
    before.Some? && after.Some? ==>
      before.value.clientId == after.value.clientId && before.value.message == after.value.message
  }

  lemma RespondKeepsReply(w: World, status: Status)
    requires Enabled(w, Respond(status)) && w.life.reply.Some?
    ensures SameReply(w.life.reply, AfterRespond(w, status).life.reply)
  {
  }

  lemma FlushKeepsReply(w: World, e: Event)
    requires Enabled(w, e) && w.life.reply.Some?
    requires e.QueueReply? || e.BeginFlush? || e.Decide? || e.Look? || e.Settle? || e.Hand?
    ensures Step(w, e).life.reply == w.life.reply
  {
    match e
    case QueueReply(_) =>
    case BeginFlush =>
    case Decide(_) =>
    case Look =>
    case Settle(_) =>
    case Hand(_) =>
  }

  lemma OthersKeepReply(w: World, e: Event)
    requires Enabled(w, e)
    requires !FlushEvent(e)
    ensures Step(w, e).life.reply == w.life.reply
  {
    match e
    case PrepareTask =>
    case AcceptTask =>
    case RefuseTask =>
    case JournalWorker(_) =>
    case DropWorker(_) =>
    case Defer =>
    case Resume =>
    case ObserveTerminal =>
    case CloseIdle =>
    case Crash(_) =>
  }

  lemma HandsThePendingReply(w: World, e: Event)
    requires Enabled(w, e) && Step(w, e).handed != w.handed
    ensures w.life.reply.Some? && Step(w, e).handed == w.handed + [Handed(w.life.reply.value, w.pc.decision, w.life)]
    ensures e == Hand(true)
  {
  }

  /** While a reply is pending its text and client id never change, another reply queued
      meanwhile is not taken, and every hand-over uses the pending one. */
  lemma RetriesReuseTheClientId(events: seq<Event>, e: Event)
    requires ValidRun(FRESH, events) && Enabled(After(FRESH, events), e)
    ensures var w := After(FRESH, events);
            && SameReply(w.life.reply, Step(w, e).life.reply)
            && (w.life.reply.Some? && Step(w, e).life.reply == None ==> e.Respond?)
            && (Step(w, e).handed != w.handed ==>
                  && w.life.reply.Some? && e == Hand(true)
                  && Step(w, e).handed == w.handed + [Handed(w.life.reply.value, w.pc.decision, w.life)]
                  && w.life.reply.value.clientId == ClientId(w.life.reply.value.message))
  {
    var w := After(FRESH, events);
    RunKeepsInv(FRESH, events);
    if w.life.reply.Some? {
      if e.Respond? {
        RespondKeepsReply(w, e.status);
      } else if FlushEvent(e) {
        FlushKeepsReply(w, e);
      } else {
        OthersKeepReply(w, e);
      }
    }
    if Step(w, e).handed != w.handed {
      HandsThePendingReply(w, e);
    }
  }

  /** A reply is given up after twelve recorded attempts at the latest: each failure adds
      one, and the twelfth, or a permanent one, drops it and closes the lifecycle. */
  lemma AttemptsAreBounded(events: seq<Event>, status: Status)
    requires ValidRun(FRESH, events) && Enabled(After(FRESH, events), Respond(status))
    ensures var w := After(FRESH, events);
            var t := Step(w, Respond(status));
            && w.recorded < MAX_PENDING_REPLY_ATTEMPTS
            && t.recorded == (if status.Sent? then w.recorded else w.recorded + 1) <= MAX_PENDING_REPLY_ATTEMPTS
            && (t.life.reply == None <==>
                status.Sent? || status.Permanent? || w.recorded + 1 == MAX_PENDING_REPLY_ATTEMPTS)
            && (t.life.reply == None ==> t.life.closed)
  {
    RunKeepsInv(FRESH, events);
  }

  // --------------------------------------------------------------- the lifecycle

  lemma {:induction false} RunSnoc(w: World, events: seq<Event>, e: Event)
    requires ValidRun(w, events) && Enabled(After(w, events), e)
    ensures ValidRun(w, events + [e]) && After(w, events + [e]) == Step(After(w, events), e)
    decreases |events|
  {
    if events == [] {
      assert [] + [e] == [e] && [e][1..] == [];
    } else {
      RunSnoc(Step(w, events[0]), events[1..], e);
      assert (events + [e])[1..] == events[1..] + [e];
    }
  }

  lemma DecideRun(w: World, activeWorkers: bool)
    requires w.pc.Gathering?
    ensures ValidRun(w, [Decide(activeWorkers)]) && After(w, [Decide(activeWorkers)]) == AfterDecide(w, activeWorkers)
  {
    Then(w, Decide(activeWorkers), []);
    assert [Decide(activeWorkers)] + [] == [Decide(activeWorkers)];
  }

  lemma DecideLookRun(w: World, activeWorkers: bool)
    requires w.pc.Gathering? && AfterDecide(w, activeWorkers).pc.Judged?
    ensures ValidRun(w, [Decide(activeWorkers), Look])
    ensures After(w, [Decide(activeWorkers), Look]) == AfterLook(AfterDecide(w, activeWorkers))
  {
    DecideRun(w, activeWorkers);
    RunSnoc(w, [Decide(activeWorkers)], Look);
    assert [Decide(activeWorkers)] + [Look] == [Decide(activeWorkers), Look];
  }

  lemma DecideSettleRun(w: World, activeWorkers: bool, answers: Answers)
    requires w.pc.Gathering? && AfterDecide(w, activeWorkers).pc.Judged?
    requires Enabled(AfterLook(AfterDecide(w, activeWorkers)), Settle(answers))
    ensures ValidRun(w, [Decide(activeWorkers), Look, Settle(answers)])
    ensures After(w, [Decide(activeWorkers), Look, Settle(answers)])
         == AfterSettle(AfterLook(AfterDecide(w, activeWorkers)), answers)
  {
    DecideLookRun(w, activeWorkers);
    RunSnoc(w, [Decide(activeWorkers), Look], Settle(answers));
    assert [Decide(activeWorkers), Look] + [Settle(answers)] == [Decide(activeWorkers), Look, Settle(answers)];
  }

  /** A flush gets as far as the transport: no task is required, or it is confirmed with no
      worker and no deferral, and its card is known to be done or is settled in time. */
  predicate Reaches(l: Life, activeWorkers: bool, answers: Answers) {
    !TaskRequired(l)
    || (&& l.confirmed && !activeWorkers && l.workers == {} && !l.deferred
        && (l.terminal || (l.hasTask && SettlesTheCard(answers))))
  }

  datatype FlushResult = NothingQueued | QueuedBehindTask | QueuedForDelivery | MessageSent | Abandoned

  /** What the transport's answer leaves: the reply gone when it was sent, refused for good or
      tried for the twelfth time, and otherwise kept with one more attempt. */
  predicate Delivered(before: Reply, status: Status, result: FlushResult, after: Option<Reply>, closed: bool) {
    if status.Sent? then result.MessageSent? && after == None && closed
    else if status.Permanent? || before.attempts >= 11 then result.Abandoned? && after == None && closed
    else result.QueuedForDelivery? && after == Some(before.(attempts := before.attempts + 1))
  }

  class LongTaskLifecycle {
    var hasTask: bool
    var confirmed: bool
    var createSpec: bool
    var createAttempts: nat
    var workers: set<nat>
    var deferred: bool
    var terminal: bool
    var settleRequested: bool
    var reply: Option<Reply>
    var closed: bool
    var replySent: bool
    ghost var pc: Pc
    ghost var handed: seq<Handed>
    ghost var recorded: nat

    ghost function Fields(): Life
      reads this
    {
      Life(hasTask, confirmed, createSpec, createAttempts, workers, deferred, terminal, settleRequested, reply, closed,
           replySent)
    }

    ghost function State(): World
      reads this
    {
      World(Fields(), pc, handed, recorded)
    }

    constructor ()
      ensures State() == FRESH
    {
      hasTask, confirmed, createSpec, createAttempts, workers := false, false, false, 0, {};
      deferred, terminal, settleRequested, reply, closed, replySent := false, false, false, None, false, false;
      pc, handed, recorded := Resting, [], 0;
    }

    method QueueFinalReply(text: string) returns (clientId: ClientId)
      modifies this
      ensures State() == Step(old(State()), QueueReply(text))
      ensures reply.Some? && clientId == reply.value.clientId
      ensures old(reply).Some? ==> State() == old(State())
      ensures old(reply) == None ==>
        && reply.value.message == (if |text| > 262_144 then text[..262_144] else text) && reply.value.attempts == 0
        && clientId == ClientId(reply.value.message) && settleRequested == old(hasTask)
    {
      if reply.Some? {
        return reply.value.clientId;
      }
      var message := Truncated(text);
      clientId := ClientId(message);
      reply := Some(Reply(message, clientId, 0));
      settleRequested := hasTask;
      recorded := 0;
    }

    /** The answer of the transport, recorded. */
    method RecordStatus(status: Status) returns (result: FlushResult)
      requires pc.Sending? && Inv(State())
      modifies this
      ensures State() == Step(old(State()), Respond(status))
      ensures result == if status.Sent? then MessageSent else if reply == None then Abandoned else QueuedForDelivery
      ensures Delivered(old(reply).value, status, result, reply, closed)
    {
      if status.Sent? {
        reply, replySent, closed := None, true, true;
        pc := Resting;
        return MessageSent;
      }
      var attempts := reply.value.attempts + 1;
      pc, recorded := Resting, attempts;
      if status.Permanent? || attempts >= MAX_PENDING_REPLY_ATTEMPTS {
        reply, closed := None, true;
        return Abandoned;
      }
      reply := Some(reply.value.(attempts := attempts));
      return QueuedForDelivery;
    }

    /** What the decision of a flush reads: whether a task is required, and whether one that is
        lets the reply pass. */
    method ReadDecision(activeWorkers: bool) returns (passed: bool, required: bool)
      ensures required <==> hasTask || createSpec || createAttempts > 0
      ensures passed <==> !required || (confirmed && !activeWorkers && workers == {} && !deferred)
      ensures required == TaskRequired(Fields()) && passed == !Held(Decision(Fields(), activeWorkers))
    {
      required := hasTask || createSpec || createAttempts > 0;
      passed := !(required && (activeWorkers || workers != {} || deferred || !confirmed));
    }

    /** The locked decision of a flush: whether it goes on, and whether a task is required. */
    method DecideDelivery(activeWorkers: bool) returns (passed: bool, required: bool)
      requires pc.Gathering?
      modifies this`settleRequested, this`pc
      ensures State() == AfterDecide(old(State()), activeWorkers)
      ensures passed == pc.Judged? && required == TaskRequired(old(Fields()))
      ensures required <==> hasTask || createSpec || createAttempts > 0
      ensures passed <==> !required || (confirmed && !activeWorkers && workers == {} && !deferred)
      ensures settleRequested == (old(settleRequested) || !passed)
    {
      ghost var before := State();
      passed, required := ReadDecision(activeWorkers);
      if !passed {
        settleRequested := true;
        pc := Resting;
        assert State() == before.(life := before.life.(settleRequested := true), pc := Resting);
      } else {
        pc := Judged(Decision(before.life, activeWorkers));
        assert State() == before.(pc := Judged(Decision(before.life, activeWorkers)));
      }
    }

    /** Whether the card has to be settled, read after the lock was given back. */
    method LookAtTheCard(required: bool) returns (unsettled: bool)
      requires pc.Judged? && required == TaskRequired(pc.decision.life)
      modifies this`pc
      ensures State() == AfterLook(old(State()))
      ensures unsettled == pc.Settling? == (required && !terminal)
    {
      unsettled := required && !terminal;
      pc := if unsettled then Settling(pc.decision) else Ready(pc.decision);
    }

    /** Completing the task's card, or learning that it cannot be completed now: the
        card is read, completed, and read once more when the completion failed. */
    method SettleTask(early: bool, card: Card, completed: bool, proof: Card) returns (settled: bool)
      requires pc.Settling?
      modifies this
      ensures State() == AfterSettle(old(State()), Answers(early, card, completed, proof))
      ensures settled <==>
        && old(hasTask) && old(confirmed) && !early
        && (card.TerminalCard? || (card.OpenCard? && (completed || proof.TerminalCard?)))
      ensures terminal == (old(terminal) || settled)
      ensures deferred == (old(deferred) || (old(hasTask) && old(confirmed) && !early && card.BlockedCard?))
      ensures settled ==> pc == Ready(old(pc).decision)
      ensures !settled ==> pc.Resting?
    {
      if !hasTask || !confirmed || early {
        pc := Resting;
        return false;
      }
      match card {
        case TerminalCard =>
          terminal, settleRequested, pc := true, false, Ready(pc.decision);
          return true;
        case BlockedCard =>
          deferred, settleRequested, pc := true, true, Resting;
          return false;
        case OpenCard =>
      }
      var accepted := completed;
      if !accepted {
        accepted := proof.TerminalCard?;
      }
      if !accepted {
        settleRequested, pc := true, Resting;
        return false;
      }
      terminal, settleRequested, pc := true, false, Ready(pc.decision);
      return true;
    }

    /** The barrier of a flush: whether the reply may go out, settling the card if need be. */
    method PassBarrier(activeWorkers: bool, answers: Answers) returns (ready: bool, ghost events: seq<Event>)
      requires pc.Gathering?
      modifies this
      ensures ValidRun(old(State()), events) && State() == After(old(State()), events)
      ensures ready == Reaches(old(Fields()), activeWorkers, answers)
      ensures reply == old(reply) && handed == old(handed)
      ensures if ready then pc.Ready? else pc.Resting?
    {
      ghost var start := State();
      events := BarrierEvents(start, activeWorkers, answers);
      BarrierRun(start, activeWorkers, answers);
      var passed, required := DecideDelivery(activeWorkers);
      if !passed {
        return false, events;
      }
      var unsettled := LookAtTheCard(required);
      if unsettled {
        ready := SettleTask(answers.early, answers.card, answers.completed, answers.proof);
      } else {
        ready := true;
      }
    }

    /** The transport call of a flush, and its answer. */
    method HandOver(hasSender: bool, status: Status) returns (result: FlushResult, ghost events: seq<Event>)
      requires pc.Ready? && reply.Some? && Inv(State())
      modifies this
      ensures ValidRun(old(State()), events) && State() == After(old(State()), events) && pc.Resting?
      ensures handed == if hasSender then old(handed) + [Handed(old(reply).value, old(pc).decision, old(Fields()))] else old(handed)
      ensures result == if !hasSender then QueuedForDelivery
                        else if status.Sent? then MessageSent else if reply == None then Abandoned else QueuedForDelivery
      ensures !hasSender ==> reply == old(reply)
      ensures hasSender ==> Delivered(old(reply).value, status, result, reply, closed)
    {
      ghost var start := State();
      HandRun(start, hasSender, status);
      if !hasSender {
        pc := Resting;
        return QueuedForDelivery, [Hand(false)];
      }
      handed := handed + [Handed(reply.value, pc.decision, Fields())];
      pc := Sending(pc.decision, reply.value);
      events := [Hand(true), Respond(status)];
      result := RecordStatus(status);
    }

    /** One flush without interference: what it hands over depends on the active workers,
        the answers about the card, the sender, and the status given. */
    method FlushFinalReply(activeWorkers: bool, answers: Answers, hasSender: bool, status: Status)
      returns (result: FlushResult, ghost events: seq<Event>)
      requires Inv(State()) && pc.Resting?
      modifies this
      ensures ValidRun(old(State()), events) && State() == After(old(State()), events) && pc.Resting?
      ensures result.NothingQueued? <==> old(reply) == None
      ensures result.NothingQueued? ==> State() == old(State())
      ensures if old(reply).Some? && hasSender && Reaches(old(Fields()), activeWorkers, answers)
              then |handed| == |old(handed)| + 1 && handed[..|old(handed)|] == old(handed)
                   && handed[|old(handed)|].reply == old(reply).value
              else handed == old(handed)
      ensures old(reply).Some? && !Reaches(old(Fields()), activeWorkers, answers) ==>
        result.QueuedBehindTask? && reply == old(reply)
      ensures old(reply).Some? && Reaches(old(Fields()), activeWorkers, answers) && !hasSender ==>
        result.QueuedForDelivery? && reply == old(reply)
      ensures old(reply).Some? && Reaches(old(Fields()), activeWorkers, answers) && hasSender ==>
        Delivered(old(reply).value, status, result, reply, closed)
    {
      ghost var start := State();
      if reply == None {
        return NothingQueued, [];
      }
      RunSnoc(start, [], BeginFlush);
      events := [BeginFlush];
      assert [] + events == events;
      pc := Gathering;
      var ready;
      ghost var more;
      ready, more := PassBarrier(activeWorkers, answers);
      Joined(start, events, more);
      events := events + more;
      if !ready {
        return QueuedBehindTask, events;
      }
      assert Inv(State()) by { RunKeepsInv(start, events); }
      result, more := HandOver(hasSender, status);
      Joined(start, events, more);
      events := events + more;
    }
  }

  /** The decision of a flush, and the settlement if one is needed. */
  function BarrierEvents(w: World, activeWorkers: bool, answers: Answers): seq<Event>
    requires w.pc.Gathering?
  {
    var d := AfterDecide(w, activeWorkers);
    if !d.pc.Judged? then [Decide(activeWorkers)]
    else if AfterLook(d).pc.Settling? then [Decide(activeWorkers), Look, Settle(answers)]
    else [Decide(activeWorkers), Look]
  }

  lemma BarrierRun(w: World, activeWorkers: bool, answers: Answers)
    requires w.pc.Gathering?
    ensures var events := BarrierEvents(w, activeWorkers, answers);
            var d := AfterDecide(w, activeWorkers);
            && ValidRun(w, events)
            && (!d.pc.Judged? ==> After(w, events) == d)
            && (d.pc.Judged? ==>
                  var l := AfterLook(d);
                  && l.life == w.life
                  && (l.pc.Settling? ==> w.life.confirmed && Enabled(l, Settle(answers))
                                         && After(w, events) == AfterSettle(l, answers))
                  && (!l.pc.Settling? ==> After(w, events) == l))
            && (After(w, events).pc.Ready? <==> Reaches(w.life, activeWorkers, answers))
            && (After(w, events).pc.Ready? || After(w, events).pc.Resting?)
            && After(w, events).life.reply == w.life.reply && After(w, events).handed == w.handed
  {
    DecideRun(w, activeWorkers);
    var d := AfterDecide(w, activeWorkers);
    if d.pc.Judged? {
      DecideLookRun(w, activeWorkers);
      if AfterLook(d).pc.Settling? {
        DecideSettleRun(w, activeWorkers, answers);
      }
    }
  }

  /** The hand-over of a flush, and the answer, as steps of the barrier. */
  lemma HandRun(w: World, hasSender: bool, status: Status)
    requires w.pc.Ready? && w.life.reply.Some? && Inv(w)
    ensures !hasSender ==> ValidRun(w, [Hand(false)]) && After(w, [Hand(false)]) == w.(pc := Resting)
    ensures hasSender ==>
              && Inv(AfterHand(w, true)) && ValidRun(w, [Hand(true), Respond(status)])
              && After(w, [Hand(true), Respond(status)]) == AfterRespond(AfterHand(w, true), status)
  {
    RunSnoc(w, [], Hand(hasSender));
    assert [] + [Hand(hasSender)] == [Hand(hasSender)];
    if hasSender {
      StepKeepsInv(w, Hand(true));
      RunSnoc(w, [Hand(true)], Respond(status));
      assert [Hand(true)] + [Respond(status)] == [Hand(true), Respond(status)];
    }
  }

  lemma {:induction false} Joined(w: World, a: seq<Event>, b: seq<Event>)
    requires ValidRun(w, a) && ValidRun(After(w, a), b)
    ensures ValidRun(w, a + b) && After(w, a + b) == After(After(w, a), b)
    decreases |a|
  {
    if a == [] {
      assert a + b == b;
    } else {
      assert (a + b)[1..] == a[1..] + b;
      Joined(Step(w, a[0]), a[1..], b);
    }
  }

  /** A crash ends the flush and forgets nothing durable; it defers a task with no reply
      pending where that is asked for. */
  lemma CrashKeepsTheReply(w: World, pause: bool)
    ensures var t := Step(w, Crash(pause));
            && t == w.(pc := Resting, life := t.life)
            && t.life == w.life.(replySent := false, deferred := t.life.deferred)
            && (t.life.deferred <==> w.life.deferred || (pause && w.life.reply.None?))
  {
  }

  /** What a delivered reply leaves: handed over once more, and the lifecycle closed with
      nothing pending. */
  predicate HandedOut(w: World, t: World, reply: Reply) {
    && |t.handed| == |w.handed| + 1 && t.handed[..|w.handed|] == w.handed && t.handed[|w.handed|].reply == reply
    && t.life.reply == None && t.life.replySent && t.life.closed && t.pc.Resting?
  }

  lemma FlushGoesOut(w: World, activeWorkers: bool, answers: Answers) returns (flush: seq<Event>)
    requires Inv(w) && w.pc.Resting? && w.life.reply.Some? && Reaches(w.life, activeWorkers, answers)
    ensures ValidRun(w, flush) && HandedOut(w, After(w, flush), w.life.reply.value)
    ensures flush == [BeginFlush] + BarrierEvents(w.(pc := Gathering), activeWorkers, answers) + [Hand(true), Respond(Sent)]
  {
    RunSnoc(w, [], BeginFlush);
    assert [] + [BeginFlush] == [BeginFlush];
    var u := w.(pc := Gathering);
    var barrier := BarrierEvents(u, activeWorkers, answers);
    BarrierRun(u, activeWorkers, answers);
    Joined(w, [BeginFlush], barrier);
    RunKeepsInv(w, [BeginFlush] + barrier);
    var v := After(u, barrier);
    HandRun(v, true, Sent);
    Joined(w, [BeginFlush] + barrier, [Hand(true), Respond(Sent)]);
    flush := [BeginFlush] + barrier + [Hand(true), Respond(Sent)];
  }

  /** In any reachable state without a pending reply and with no flush under way, a queued
      text goes out in one flush that the barrier lets through, cut to the length kept. */
  lemma AQueuedReplyGoesOut(events: seq<Event>, text: string, activeWorkers: bool, answers: Answers)
    returns (more: seq<Event>)
    requires ValidRun(FRESH, events)
    requires var w := After(FRESH, events);
             w.pc.Resting? && w.life.reply == None && Reaches(w.life, activeWorkers, answers)
    ensures var w, message := After(FRESH, events), if |text| > 262_144 then text[..262_144] else text;
            && more != [] && more[0] == QueueReply(text) && (forall e :: e in more[1..] ==> FlushEvent(e))
            && ValidRun(w, more) && HandedOut(w, After(w, more), Reply(message, ClientId(message), 0))
  {
    var w := After(FRESH, events);
    RunKeepsInv(FRESH, events);
    StepKeepsInv(w, QueueReply(text));
    var queued := Step(w, QueueReply(text));
    var flush := FlushGoesOut(queued, activeWorkers, answers);
    Then(w, QueueReply(text), flush);
    more := [QueueReply(text)] + flush;
    assert more[1..] == flush;
  }
}
