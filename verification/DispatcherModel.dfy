/** `ManagerDispatcher` of `main.py`: a bounded number of claimed roots, one thread
    per contact, injection into a running turn, and settlement of every admission
    as completed, retried or deferred.  Each locked section and each call into the
    coordinator is one step; the steps of all threads interleave freely. */
module DispatcherModel {
  import opened Common

  /** An admission, named by its claim token; `review` marks an accuracy review. */
  datatype Admission = Admission(token: nat, contact: string, review: bool)

  type Batch = seq<Admission>

  /** The dispatcher's own fields. */
  datatype Slots = Slots(
    pending: map<string, Batch>,
    injected: map<string, Batch>,
    running: set<string>,
    threads: map<nat, string>,
    claimed: nat,
    limit: nat,
    closed: bool,
    nextThread: nat)

  function NoWork(limit: nat): Slots {
    Slots(map[], map[], {}, map[], 0, limit, false, 0)
  }

  /** Where a thread of `_run_contact` stands. */
  datatype Stage =
    | AtTop
    | Running(batch: Batch, rest: seq<Batch>)
    | Finished(batch: Batch, rest: seq<Batch>, ok: bool)
    | Settling(settled: Batch, rest: seq<Batch>, ok: bool)
    | Releasing(settled: Batch, rest: seq<Batch>)
    | Replaying(rest: seq<Batch>)
    | Stranded(settled: Batch)
    | StrandedReleasing(settled: Batch)
    | LastReplay

  datatype Thread = Thread(contact: string, stage: Stage)

  datatype Place = InPending(contact: string) | InInjected(contact: string) | InHand(thread: nat) | Leaked

  /** `Lapsed`: handing it back raised, so only the expiry of its claim frees it. */
  datatype Settlement = Completed | Retried | Deferred | Lapsed

  /** A call of `submit` or of the replay: it registers threads, and starts them only
      after its loop; a call that raises before that never starts them. */
  datatype CallStage = Collecting | Starting | Abandoned

  /** `owner` says where each unreleased admission is, `settled` how each settled
      one was settled; both are history, as is `aborted`.  `unstarted` holds the
      registered threads not started yet, with the call that is to start them. */
  datatype World = World(
    slots: Slots,
    threads: map<nat, Thread>,
    owner: map<nat, Place>,
    settled: map<nat, Settlement>,
    aborted: bool,
    calls: map<nat, CallStage>,
    unstarted: map<nat, nat>)

  // ----------------------------------------------------------------- scheduling

  datatype Verdict = Started | Injected | Overflowed

  function Held(m: map<string, Batch>, contact: string): Batch {
    if contact in m then m[contact] else []
  }

  /** One admission of `_schedule_admissions_locked`; `offer` is the answer of the
      live run to being offered the message. */
  function ScheduleOne(s: Slots, a: Admission, offer: bool): (Slots, Verdict) {
    if s.claimed >= s.limit then (s, Overflowed)
    else if a.contact in s.running then
      if offer then
        (s.(claimed := s.claimed + 1, injected := s.injected[a.contact := Held(s.injected, a.contact) + [a]]), Injected)
      else (s, Overflowed)
    else
      (s.(
       claimed := s.claimed + 1,
       pending := s.pending[a.contact := Held(s.pending, a.contact) + [a]],
       running := s.running + {a.contact},
       threads := s.threads[s.nextThread := a.contact],
       nextThread := s.nextThread + 1), Started)
  }

  function Schedule(s: Slots, admissions: Batch, offers: seq<bool>): (Slots, Batch)
    requires |offers| == |admissions|
    decreases |admissions|
  {
    if admissions == [] then (s, [])
    else
      var one := ScheduleOne(s, admissions[0], offers[0]);
      var rest := Schedule(one.0, admissions[1..], offers[1..]);
      (rest.0, (if one.1 == Overflowed then [admissions[0]] else []) + rest.1)
  }

  /** The batches one turn is run in: reviews alone, the rest together. */
  function Split(admissions: Batch): seq<Batch> {
    if admissions == [] then []
    else if admissions[0].review then [[admissions[0]]] + Split(admissions[1..])
    else
      var rest := Split(admissions[1..]);
      if rest != [] && rest[0] != [] && !rest[0][0].review then [[admissions[0]] + rest[0]] + rest[1..]
      else [[admissions[0]]] + rest
  }

  function Flatten(batches: seq<Batch>): Batch {
    if batches == [] then [] else batches[0] + Flatten(batches[1..])
  }

  /** What a thread holds between claiming it and giving its slot back. */
  function Hands(stage: Stage): Batch {
    match stage
    case Running(batch, rest) => batch + Flatten(rest)
    case Finished(batch, rest, _) => batch + Flatten(rest)
    case Settling(settled, rest, _) => settled + Flatten(rest)
    case Releasing(settled, rest) => settled + Flatten(rest)
    case Replaying(rest) => Flatten(rest)
    case Stranded(settled) => settled
    case StrandedReleasing(settled) => settled
    case _ => []
  }

  /** Admissions of a thread's hand that it has settled already. */
  function SettledHands(stage: Stage): Batch {
    match stage
    case Releasing(settled, _) => settled
    case StrandedReleasing(settled) => settled
    case _ => []
  }

  /** Still counted among `_threads` and in `_running`. */
  predicate Live(stage: Stage) {
    !stage.Stranded? && !stage.StrandedReleasing? && !stage.LastReplay?
  }

  function Tokens(batch: Batch): set<nat> {
    set a | a in batch :: a.token
  }

  // --------------------------------------------------------------------- events

  datatype Event =
    | OpenSubmit(k: nat)
    | Submit(k: nat, a: Admission, offer: bool)
    | SubmitRaises(k: nat)
    | DeferRaises(k: nat, a: Admission)
    | CloseSubmit(k: nat)
    | Replay(k: nat, admissions: Batch, offers: seq<bool>)
    | Start(t: nat)
    | Pop(t: nat)
    | RunnerReturns(t: nat, ok: bool)
    | TakeInjected(t: nat)
    | Settle(t: nat)
    | CompleteRaises(t: nat)
    | RetryRaises(t: nat)
    | ReplayRaises(t: nat)
    | StrandedRaises(t: nat)
    | Release(t: nat)
    | ReplayDone(t: nat)
    | CompleteStranded(t: nat)
    | ReleaseStranded(t: nat)
    | Exit(t: nat)
    | Shutdown

  ghost predicate Unissued(w: World, token: nat) {
    token !in w.owner && token !in w.settled
  }

  predicate InLoop(w: World, k: nat) {
    k in w.calls && w.calls[k] == Collecting
  }

  ghost predicate At(w: World, t: nat) {
    t in w.threads
  }

  ghost predicate Enabled(w: World, e: Event) {
    match e
    case OpenSubmit(k) => k !in w.calls
    case Submit(k, a, _) =>
      // The coordinator admits only when asked to, which needs a free slot.
      InLoop(w, k) && !w.slots.closed && w.slots.claimed < w.slots.limit && Unissued(w, a.token)
    case SubmitRaises(k) =>
      // The dispatcher is closed, or the coordinator raises for the next contact.
      InLoop(w, k)
    case DeferRaises(k, a) =>
      // Turned away by the running turn, and the hand-back raises out of `submit`.
      && InLoop(w, k) && !w.slots.closed && w.slots.claimed < w.slots.limit && Unissued(w, a.token)
      && ScheduleOne(w.slots, a, false).1 == Overflowed
    case CloseSubmit(k) => InLoop(w, k)
    case Replay(k, admissions, offers) =>
      // `claim_pending_roots` with the remaining capacity, without busy contacts.
      && k !in w.calls && !w.slots.closed && w.slots.claimed < w.slots.limit
      && |admissions| <= w.slots.limit - w.slots.claimed && |offers| == |admissions|
      && (forall a :: a in admissions ==> Unissued(w, a.token) && a.contact !in w.slots.running)
      && (forall i, j :: 0 <= i < j < |admissions| ==>
            admissions[i].contact != admissions[j].contact && admissions[i].token != admissions[j].token)
    case Start(t) => t in w.unstarted && w.unstarted[t] in w.calls && w.calls[w.unstarted[t]] == Starting
    case Pop(t) => At(w, t) && w.threads[t].stage.AtTop? && t !in w.unstarted
    case RunnerReturns(t, _) => At(w, t) && w.threads[t].stage.Running?
    case TakeInjected(t) => At(w, t) && w.threads[t].stage.Finished?
    case Settle(t) => At(w, t) && w.threads[t].stage.Settling?
    case CompleteRaises(t) => At(w, t) && w.threads[t].stage.Settling? && w.threads[t].stage.ok
    case RetryRaises(t) => At(w, t) && w.threads[t].stage.Settling? && !w.threads[t].stage.ok
    case ReplayRaises(t) => At(w, t) && w.threads[t].stage.Replaying?
    case StrandedRaises(t) => At(w, t) && w.threads[t].stage.Stranded?
    case Release(t) => At(w, t) && w.threads[t].stage.Releasing?
    case ReplayDone(t) => At(w, t) && w.threads[t].stage.Replaying?
    case CompleteStranded(t) => At(w, t) && w.threads[t].stage.Stranded?
    case ReleaseStranded(t) => At(w, t) && w.threads[t].stage.StrandedReleasing?
    case Exit(t) => At(w, t) && w.threads[t].stage.LastReplay?
    case Shutdown => true
  }

  function Moved(w: World, t: nat, stage: Stage): World
    requires t in w.threads
  {
    w.(threads := w.threads[t := w.threads[t].(stage := stage)])
  }

  function Assign(owner: map<nat, Place>, batch: Batch, place: Place): map<nat, Place> {
    owner + (map token | token in Tokens(batch) :: place)
  }

  function Record(settled: map<nat, Settlement>, batch: Batch, how: Settlement): map<nat, Settlement> {
    settled + (map token | token in Tokens(batch) :: how)
  }

  /** Scheduling one admission, with the thread it registers for call k to start. */
  function WithScheduled(w: World, k: nat, a: Admission, offer: bool): World {
    var one := ScheduleOne(w.slots, a, offer);
    match one.1
    case Started =>
      w.(
      slots := one.0,
      threads := w.threads[w.slots.nextThread := Thread(a.contact, AtTop)],
      unstarted := w.unstarted[w.slots.nextThread := k],
      owner := w.owner[a.token := InPending(a.contact)])
    case Injected => w.(slots := one.0, owner := w.owner[a.token := InInjected(a.contact)])
    case Overflowed => w.(settled := w.settled[a.token := Deferred])
  }

  function WithAllScheduled(w: World, k: nat, admissions: Batch, offers: seq<bool>): World
    requires |offers| == |admissions|
    decreases |admissions|
  {
    if admissions == [] then w
    else WithAllScheduled(WithScheduled(w, k, admissions[0], offers[0]), k, admissions[1..], offers[1..])
  }

  function AfterPop(w: World, t: nat): World
    requires t in w.threads
  {
    var contact := w.threads[t].contact;
    var admissions := Held(w.slots.pending, contact);
    if admissions != [] then
      var batches := Split(admissions);
      if batches == [] then w
      else
        Moved(w.(slots := w.slots.(pending := w.slots.pending - {contact}),
              owner := Assign(w.owner, admissions, InHand(t))),
              t, Running(batches[0], batches[1..]))
    else
      var stranded := Held(w.slots.injected, contact);
      Moved(w.(
            slots := w.slots.(
                    injected := w.slots.injected - {contact},
                    running := w.slots.running - {contact},
                    threads := w.slots.threads - {t}),
            owner := Assign(w.owner, stranded, InHand(t))),
            t, if stranded == [] then LastReplay else Stranded(stranded))
  }

  function AfterRelease(w: World, t: nat, batch: Batch, next: Stage): World
    requires t in w.threads
  {
    Moved(w.(
          slots := w.slots.(claimed := if w.slots.claimed >= |batch| then w.slots.claimed - |batch| else 0),
          owner := w.owner - Tokens(batch)),
          t, next)
  }

  /** A coordinator call raises out of the thread: what it holds keeps its slots, and
      the contact is given up unless the thread had given it up already. */
  function AfterDeath(w: World, t: nat): World
    requires t in w.threads
  {
    var stage := w.threads[t].stage;
    w.(
    slots := if Live(stage)
             then w.slots.(running := w.slots.running - {w.threads[t].contact}, threads := w.slots.threads - {t})
             else w.slots,
    threads := w.threads - {t},
    owner := Assign(w.owner, Hands(stage), Leaked),
    aborted := true)
  }

  ghost function Step(w: World, e: Event): World
    requires Enabled(w, e)
  {
    match e
    case OpenSubmit(k) => w.(calls := w.calls[k := Collecting])
    case Submit(k, a, offer) => WithScheduled(w, k, a, offer)
    case SubmitRaises(k) => w.(calls := w.calls[k := Abandoned])
    case DeferRaises(k, a) => w.(settled := w.settled[a.token := Lapsed], calls := w.calls[k := Abandoned])
    case CloseSubmit(k) => w.(calls := w.calls[k := Starting])
    case Replay(k, admissions, offers) =>
      WithAllScheduled(w, k, admissions, offers).(calls := w.calls[k := Starting])
    case Start(t) => w.(unstarted := w.unstarted - {t})
    case Pop(t) => AfterPop(w, t)
    case RunnerReturns(t, ok) =>
      Moved(w, t, Finished(w.threads[t].stage.batch, w.threads[t].stage.rest, ok))
    case TakeInjected(t) =>
      var contact, stage := w.threads[t].contact, w.threads[t].stage;
      var taken := Held(w.slots.injected, contact);
      Moved(w.(
            slots := w.slots.(injected := w.slots.injected - {contact}),
            owner := Assign(w.owner, taken, InHand(t))),
            t, Settling(stage.batch + taken, stage.rest, stage.ok))
    case Settle(t) =>
      var stage := w.threads[t].stage;
      Moved(w.(settled := Record(w.settled, stage.settled, if stage.ok then Completed else Retried)),
            t, Releasing(stage.settled, stage.rest))
    case CompleteRaises(t) =>
      Moved(w, t, Settling(w.threads[t].stage.settled, w.threads[t].stage.rest, false))
    case RetryRaises(t) => AfterDeath(w, t)
    case ReplayRaises(t) => AfterDeath(w, t)
    case StrandedRaises(t) => AfterDeath(w, t)
    case Release(t) =>
      AfterRelease(w, t, w.threads[t].stage.settled, Replaying(w.threads[t].stage.rest))
    case ReplayDone(t) =>
      var rest := w.threads[t].stage.rest;
      Moved(w, t, if rest == [] then AtTop else Running(rest[0], rest[1..]))
    case CompleteStranded(t) =>
      Moved(w.(settled := Record(w.settled, w.threads[t].stage.settled, Completed)),
            t, StrandedReleasing(w.threads[t].stage.settled))
    case ReleaseStranded(t) => AfterRelease(w, t, w.threads[t].stage.settled, LastReplay)
    case Exit(t) => w.(threads := w.threads - {t})
    case Shutdown => w.(slots := w.slots.(closed := true))
  }
}
