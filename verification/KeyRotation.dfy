/** The journalled key rotation of `update.py`: the replacement is staged before the
    server is asked, and authentication probes decide which key survives.  Each file
    write, probe and server action is one step; a crash may fall between any two. */
module KeyRotation {
  import opened Common

  type Key = nat

  /** Every place a key may be configured, in order of authority, and the journal entry. */
  datatype Files = Files(
    glass: Option<Key>,
    nested: Option<Key>,
    dotenvUpdate: Option<Key>,
    dotenvGlass: Option<Key>,
    envPyUpdate: Option<Key>,
    envPyGlass: Option<Key>,
    environment: Option<Key>,
    pending: Option<Key>)

  /** `_configured_auth_pair`: the first authority holding a key. */
  function Configured(f: Files): Option<Key> {
    if f.glass.Some? then f.glass
    else if f.nested.Some? then f.nested
    else if f.dotenvUpdate.Some? then f.dotenvUpdate
    else if f.dotenvGlass.Some? then f.dotenvGlass
    else if f.envPyUpdate.Some? then f.envPyUpdate
    else if f.envPyGlass.Some? then f.envPyGlass
    else f.environment
  }

  const PERSIST_STEPS := 6

  /** The writes of `_persist_auth_key`, one at a time. */
  function PersistWrite(f: Files, key: Key, step: nat): Files {
    match step
    case 0 => f.(glass := Some(key))
    case 1 => f.(nested := None)
    case 2 => f.(dotenvUpdate := None)
    case 3 => f.(dotenvGlass := None)
    case 4 => f.(envPyUpdate := None)
    case 5 => f.(envPyGlass := None)
    case _ => f
  }

  predicate Scrubbed(f: Files, key: Key) {
    && f.glass == Some(key) && f.nested == None && f.dotenvUpdate == None && f.dotenvGlass == None
    && f.envPyUpdate == None && f.envPyGlass == None
  }

  datatype Request = Request(auth: Key, replacement: Key)

  datatype Phase = Before(pending: Option<Key>) | AfterPost(replacement: Key)

  datatype Pc =
    | Idle
    | Probing(current: Option<Key>, phase: Phase)
    | ProbingCurrent(key: Key, phase: Phase)
    | Persisting(step: nat, key: Key, phase: Phase)
    | Clearing(key: Key, phase: Phase)
    | Recovered(current: Option<Key>, phase: Phase)
    | Posting(key: Key, replacement: Key)
    | Awaiting(key: Key, replacement: Key)
    | Done(key: Key)
    | Failed(unresolved: bool)

  /** A probe's answer: `Clear` proves the identity or rejects the key, truthfully; `Raises`
      ends the recovery; `Odd` is a success status other than 200, which proves nothing,
      does not raise, and is taken for a rejection. */
  datatype Answer = Clear | Raises | Odd

  /** `expired` are requests the server had not acted on when a probe was answered; `odd`
      is history: some probe was answered oddly. */
  datatype World = World(
    files: Files,
    active: Key,
    inFlight: Option<Request>,
    expired: set<Request>,
    odd: bool,
    pc: Pc)

  datatype Event =
    | Begin
    | ProbePending(answer: Answer)
    | ProbeCurrent(answer: Answer)
    | Write
    | Decide
    | Stage(replacement: Key)
    | Post
    | PostReturns(redirected: bool)
    | ServerApplies
    | LateApply(request: Request)
    | Crash

  predicate Enabled(w: World, e: Event) {
    match e
    case Begin => w.pc.Idle? || w.pc.Done? || w.pc.Failed?
    case ProbePending(_) => w.pc.Probing? && w.files.pending.Some?
    case ProbeCurrent(_) => w.pc.ProbingCurrent?
    case Write => w.pc.Persisting? || w.pc.Clearing?
    case Decide => (w.pc.Probing? && w.files.pending == None) || w.pc.Recovered?
    case Stage(_) => w.pc.Recovered? && w.pc.phase.Before? && w.pc.current.Some? && w.pc.phase.pending != w.pc.current
    case Post => w.pc.Posting?
    case PostReturns(_) => w.pc.Awaiting?
    case ServerApplies => w.inFlight.Some? && w.inFlight.value.auth == w.active
    case LateApply(request) => request in w.expired && request.auth == w.active
    case Crash => true
  }

  /** A clear answer to a probe settles whether an outstanding request took effect; an
      unclear one may not have come from the server at all. */
  function Answered(w: World): World {
    w.(inFlight := None, expired := w.expired + (if w.inFlight.Some? then {w.inFlight.value} else {}))
  }

  /** What the server's state is after its answer: only a clear one settles it. */
  function AfterAnswer(w: World, answer: Answer): World {
    match answer
    case Clear => Answered(w)
    case Raises => w
    case Odd => w.(odd := true)
  }

  /** A clear answer is truthful: accepted exactly when the probed key is active. */
  function AfterProbePending(w: World, answer: Answer): World
    requires Enabled(w, ProbePending(answer))
  {
    var key, t := w.files.pending.value, AfterAnswer(w, answer);
    if answer.Raises? then t.(pc := Failed(false))
    else if answer.Clear? && key == w.active then t.(pc := Persisting(0, key, w.pc.phase))
    else if w.pc.current.Some? then t.(pc := ProbingCurrent(w.pc.current.value, w.pc.phase))
    else t.(pc := Failed(true))
  }

  function AfterProbeCurrent(w: World, answer: Answer): World
    requires Enabled(w, ProbeCurrent(answer))
  {
    var t := AfterAnswer(w, answer);
    if answer.Raises? then t.(pc := Failed(false))
    else if answer.Clear? && w.pc.key == w.active then t.(pc := Clearing(w.pc.key, w.pc.phase))
    else t.(pc := Failed(true))
  }

  function AfterWrite(w: World): World
    requires Enabled(w, Write)
  {
    match w.pc
    case Persisting(step, key, phase) =>
      if step < PERSIST_STEPS then w.(files := PersistWrite(w.files, key, step), pc := Persisting(step + 1, key, phase))
      else w.(files := w.files.(pending := None), pc := Recovered(Some(key), phase))
    case Clearing(key, phase) => w.(files := w.files.(pending := None), pc := Recovered(Some(key), phase))
    case _ => w
  }

  /** What `_rotate_auth_key_locked` does with the recovered key. */
  function AfterDecide(w: World): World
    requires Enabled(w, Decide)
  {
    match w.pc
    case Probing(current, phase) => w.(pc := Recovered(current, phase))
    case Recovered(current, phase) =>
      (match phase
       case Before(pending) =>
         if pending.Some? && current == pending then w.(pc := Done(pending.value))
         else if current == None then w.(pc := Failed(true))
         else w
       case AfterPost(replacement) =>
         if current == Some(replacement) then w.(pc := Done(replacement)) else w.(pc := Failed(false)))
    case _ => w
  }

  function Step(w: World, e: Event): World
    requires Enabled(w, e)
  {
    match e
    case Begin => w.(pc := Probing(Configured(w.files), Before(w.files.pending)))
    case ProbePending(answer) => AfterProbePending(w, answer)
    case ProbeCurrent(answer) => AfterProbeCurrent(w, answer)
    case Write => AfterWrite(w)
    case Decide => AfterDecide(w)
    case Stage(replacement) =>
      w.(files := w.files.(pending := Some(replacement)), pc := Posting(w.pc.current.value, replacement))
    case Post =>
      w.(inFlight := Some(Request(w.pc.key, w.pc.replacement)), pc := Awaiting(w.pc.key, w.pc.replacement))
    case PostReturns(redirected) =>
      if redirected then w.(pc := Failed(false))
      else w.(pc := Probing(Some(w.pc.key), AfterPost(w.pc.replacement)))
    case ServerApplies => w.(active := w.inFlight.value.replacement, inFlight := None)
    case LateApply(request) => w.(active := request.replacement, expired := w.expired - {request})
    case Crash => w.(pc := Idle)
  }

  // ------------------------------------------------------------------ invariant

  /** The server accepts a key this installation still holds. */
  predicate Safe(w: World) {
    Configured(w.files) == Some(w.active) || w.files.pending == Some(w.active)
  }

  /** What a recovery started with, and still holds while it runs. */
  predicate PhaseInv(w: World, current: Option<Key>, phase: Phase) {
    && current == Configured(w.files)
    && match phase
       case Before(pending) => pending == w.files.pending
       case AfterPost(replacement) => w.files.pending == Some(replacement)
  }

  predicate Intends(phase: Phase, key: Key) {
    match phase
    case Before(pending) => pending == Some(key)
    case AfterPost(replacement) => replacement == key
  }

  predicate ScrubbedUpTo(f: Files, key: Key, step: nat) {
    && (step > 0 ==> f.glass == Some(key)) && (step > 1 ==> f.nested == None) && (step > 2 ==> f.dotenvUpdate == None)
    && (step > 3 ==> f.dotenvGlass == None) && (step > 4 ==> f.envPyUpdate == None) && (step > 5 ==> f.envPyGlass == None)
  }

  predicate PcInv(w: World) {
    match w.pc
    case Idle => true
    case Probing(current, phase) => PhaseInv(w, current, phase)
    case ProbingCurrent(key, phase) =>
      && PhaseInv(w, Some(key), phase) && w.files.pending.Some?
      && (w.odd || (w.files.pending != Some(w.active) && w.inFlight == None))
    case Persisting(step, key, phase) =>
      && w.files.pending == Some(key) && w.active == key && w.inFlight == None && Intends(phase, key)
      && step <= PERSIST_STEPS && ScrubbedUpTo(w.files, key, step)
    case Clearing(key, phase) =>
      && Configured(w.files) == Some(key) && w.active == key && w.inFlight == None
      && w.files.pending.Some? && (w.odd || (w.files.pending != Some(key) && !Intends(phase, key)))
    case Recovered(current, phase) =>
      && w.files.pending == None && w.inFlight == None && current == Configured(w.files)
      && (w.odd || (Intends(phase, w.active) ==> Scrubbed(w.files, w.active)))
    case Posting(key, replacement) =>
      && w.files.pending == Some(replacement) && Configured(w.files) == Some(key) && w.active == key && w.inFlight == None
    case Awaiting(key, replacement) =>
      && w.files.pending == Some(replacement) && Configured(w.files) == Some(key)
    case Done(key) =>
      && w.active == key && w.files.pending == None && w.inFlight == None && Configured(w.files) == Some(key)
      && (w.odd || Scrubbed(w.files, key))
    case Failed(unresolved) => unresolved ==> w.odd
  }

  predicate WorldInv(w: World) {
    && Safe(w) && PcInv(w)
    && (w.inFlight.Some? ==> w.files.pending == Some(w.inFlight.value.replacement))
  }

  lemma StepKeepsInv(w: World, e: Event)
    requires WorldInv(w) && Enabled(w, e) && !e.LateApply?
    ensures WorldInv(Step(w, e))
  {
  }

  predicate ValidRun(w: World, events: seq<Event>)
    decreases |events|
  {
    events == [] || (Enabled(w, events[0]) && ValidRun(Step(w, events[0]), events[1..]))
  }

  function After(w: World, events: seq<Event>): World
    requires ValidRun(w, events)
    decreases |events|
  {
    if events == [] then w else After(Step(w, events[0]), events[1..])
  }

  predicate Timely(events: seq<Event>) {
    forall e :: e in events ==> !e.LateApply?
  }

  /** An installation whose configured or staged key is the one the server accepts. */
  predicate Start(w: World) {
    w.pc.Idle? && w.inFlight == None && !w.odd && Safe(w)
  }

  predicate OddAnswer(e: Event) {
    (e.ProbePending? || e.ProbeCurrent?) && e.answer.Odd?
  }

  lemma {:induction false} OddAlong(w: World, events: seq<Event>)
    requires ValidRun(w, events)
    ensures After(w, events).odd <==> w.odd || exists e :: e in events && OddAnswer(e)
    decreases |events|
  {
    if events != [] {
      OddStep(w, events[0]);
      OddAlong(Step(w, events[0]), events[1..]);
      assert forall e :: e in events <==> e == events[0] || e in events[1..];
    }
  }

  lemma OddStep(w: World, e: Event)
    requires Enabled(w, e)
    ensures Step(w, e).odd <==> w.odd || OddAnswer(e)
  {
  }

  lemma {:induction false} RunKeepsInv(w: World, events: seq<Event>)
    requires WorldInv(w) && ValidRun(w, events) && Timely(events)
    ensures WorldInv(After(w, events))
    decreases |events|
  {
    if events != [] {
      assert events[0] in events;
      StepKeepsInv(w, events[0]);
      assert Timely(events[1..]) by {
        assert forall e :: e in events[1..] ==> e in events;
      }
      RunKeepsInv(Step(w, events[0]), events[1..]);
    }
  }

  // ------------------------------------------------------------------- theorems

  /** Across crashes at any point, the key the server accepts is the configured key
      or the staged one, and recovery gives up only after a probe was answered oddly. */
  lemma RotationNeverLosesTheKey(w: World, events: seq<Event>)
    requires Start(w) && ValidRun(w, events) && Timely(events)
    ensures Safe(After(w, events))
    ensures After(w, events).pc == Failed(true) ==> exists e :: e in events && OddAnswer(e)
  {
    RunKeepsInv(w, events);
    OddAlong(w, events);
  }

  /** A reported rotation: the server accepts the key, it is the configured one and nothing
      is staged or in flight; and unless a probe was answered oddly the canonical file
      holds it and every other copy in a file is gone. */
  lemma DoneMeansBothSides(w: World, events: seq<Event>)
    requires Start(w) && ValidRun(w, events) && Timely(events) && After(w, events).pc.Done?
    ensures var end := After(w, events);
            && end.active == end.pc.key && Configured(end.files) == Some(end.pc.key)
            && end.files.pending == None && end.inFlight == None
    ensures Scrubbed(After(w, events).files, After(w, events).pc.key) || exists e :: e in events && OddAnswer(e)
  {
    RunKeepsInv(w, events);
    OddAlong(w, events);
  }

  lemma Chain(w: World, e: Event, rest: seq<Event>)
    requires Enabled(w, e) && ValidRun(Step(w, e), rest)
    ensures ValidRun(w, [e] + rest) && After(w, [e] + rest) == After(Step(w, e), rest)
  {
    assert ([e] + rest)[1..] == rest;
  }

  lemma RejectedThenApplied(w: World) returns (events: seq<Event>)
    requires w == World(Files(Some(1), None, None, None, None, None, None, Some(2)), 1, Some(Request(1, 2)), {}, false,
                        Awaiting(1, 2))
    ensures ValidRun(w, events) && !Safe(After(w, events))
    ensures events == [PostReturns(false), ProbePending(Clear), ProbeCurrent(Clear), Write] + [LateApply(Request(1, 2))]
  {
    var w1 := Step(w, PostReturns(false));
    var w2 := Step(w1, ProbePending(Clear));
    var w3 := Step(w2, ProbeCurrent(Clear));
    var w4 := Step(w3, Write);
    var late := LateApply(Request(1, 2));
    Chain(w4, late, []);
    assert !Safe(Step(w4, late));
    Chain(w3, Write, [late] + []);
    Chain(w2, ProbeCurrent(Clear), [Write] + ([late] + []));
    Chain(w1, ProbePending(Clear), [ProbeCurrent(Clear)] + ([Write] + ([late] + [])));
    events := [PostReturns(false)] + ([ProbePending(Clear)] + ([ProbeCurrent(Clear)] + ([Write] + ([late] + []))));
    Chain(w, PostReturns(false), [ProbePending(Clear)] + ([ProbeCurrent(Clear)] + ([Write] + ([late] + []))));
  }

  /** The assumption is needed: a request acted on after the probes answered leaves
      the server with a key nobody here holds. */
  lemma LateRequestLosesTheKey() returns (w: World, timely: seq<Event>, late: Event)
    ensures Start(w) && Timely(timely) && late.LateApply?
    ensures ValidRun(w, timely + [late]) && !Safe(After(w, timely + [late]))
  {
    w := World(Files(Some(1), None, None, None, None, None, None, None), 1, None, {}, false, Idle);
    late := LateApply(Request(1, 2));
    var w1 := Step(w, Begin);
    var w2 := Step(w1, Decide);
    var w3 := Step(w2, Stage(2));
    var rest := RejectedThenApplied(Step(w3, Post));
    Chain(w3, Post, rest);
    Chain(w2, Stage(2), [Post] + rest);
    Chain(w1, Decide, [Stage(2)] + ([Post] + rest));
    Chain(w, Begin, [Decide] + ([Stage(2)] + ([Post] + rest)));
    timely := [Begin, Decide, Stage(2), Post, PostReturns(false), ProbePending(Clear), ProbeCurrent(Clear), Write];
    assert timely + [late] == [Begin] + ([Decide] + ([Stage(2)] + ([Post] + rest)));
  }

  /** After a crash between two writes of the new key, an odd answer sends recovery past the
      remaining writes: the rotation is reported with an old copy left behind. */
  lemma OddAnswerLeavesACopy() returns (w: World, events: seq<Event>)
    ensures Start(w) && ValidRun(w, events) && Timely(events)
    ensures var end := After(w, events); end.pc == Done(2) && end.files.nested == Some(1) && !Scrubbed(end.files, 2)
  {
    w := World(Files(Some(2), Some(1), None, None, None, None, None, Some(2)), 2, None, {}, false, Idle);
    var w1 := Step(w, Begin);
    var w2 := Step(w1, ProbePending(Odd));
    var w3 := Step(w2, ProbeCurrent(Clear));
    var w4 := Step(w3, Write);
    Chain(w4, Decide, []);
    Chain(w3, Write, [Decide] + []);
    Chain(w2, ProbeCurrent(Clear), [Write] + ([Decide] + []));
    Chain(w1, ProbePending(Odd), [ProbeCurrent(Clear)] + ([Write] + ([Decide] + [])));
    Chain(w, Begin, [ProbePending(Odd)] + ([ProbeCurrent(Clear)] + ([Write] + ([Decide] + []))));
    events := [Begin] + ([ProbePending(Odd)] + ([ProbeCurrent(Clear)] + ([Write] + ([Decide] + []))));
    assert forall e :: e in events ==> !e.LateApply?;
  }

  /** An odd answer about the staged key, which the server accepts, makes recovery give up. */
  lemma OddAnswerGivesUp() returns (w: World, events: seq<Event>)
    ensures Start(w) && ValidRun(w, events) && Timely(events) && After(w, events).pc == Failed(true)
  {
    w := World(Files(Some(1), None, None, None, None, None, None, Some(2)), 2, None, {}, false, Idle);
    var w1 := Step(w, Begin);
    var w2 := Step(w1, ProbePending(Odd));
    Chain(w2, ProbeCurrent(Clear), []);
    Chain(w1, ProbePending(Odd), [ProbeCurrent(Clear)] + []);
    Chain(w, Begin, [ProbePending(Odd)] + ([ProbeCurrent(Clear)] + []));
    events := [Begin] + ([ProbePending(Odd)] + ([ProbeCurrent(Clear)] + []));
    assert forall e :: e in events ==> !e.LateApply?;
  }

  // -------------------------------------------------------- what a rotation reports

  /** What is made of a recovered key: before anything was sent, a staged key found active is
      reported; after the request, the replacement is reported exactly when it was found. */
  lemma DecisionReports(w: World)
    requires w.pc.Recovered?
    ensures var t := Step(w, Decide);
            && t == w.(pc := t.pc)
            && match w.pc.phase
               case Before(pending) =>
                 if pending.Some? && w.pc.current == pending then t.pc == Done(pending.value)
                 else if w.pc.current == None then t.pc == Failed(true) else t.pc == w.pc
               case AfterPost(replacement) =>
                 if w.pc.current == Some(replacement) then t.pc == Done(replacement) else t.pc == Failed(false)
  {
  }

  /** The writes that are left, and then the journal entry. */
  lemma {:induction false} WritesFinish(w: World) returns (events: seq<Event>)
    requires w.pc.Persisting? && w.pc.step <= PERSIST_STEPS && ScrubbedUpTo(w.files, w.pc.key, w.pc.step)
    ensures ValidRun(w, events) && Timely(events)
    ensures var t := After(w, events);
            && t == w.(files := t.files, pc := Recovered(Some(w.pc.key), w.pc.phase))
            && Scrubbed(t.files, w.pc.key) && t.files.pending == None
    decreases PERSIST_STEPS - w.pc.step
  {
    var t := Step(w, Write);
    if w.pc.step == PERSIST_STEPS {
      Chain(w, Write, []);
      events := [Write] + [];
    } else {
      var rest := WritesFinish(t);
      Chain(w, Write, rest);
      events := [Write] + rest;
    }
  }

  lemma TimelyMore(e: Event, rest: seq<Event>)
    requires Timely(rest) && !e.LateApply?
    ensures Timely([e] + rest)
  {
    assert forall x :: x in [e] + rest ==> x == e || x in rest;
  }

  /** A staged key the server already accepts, found again after a crash at any point, is
      taken over and reported. */
  lemma StagedKeyIsTakenOver(w: World) returns (events: seq<Event>)
    requires Start(w) && w.files.pending == Some(w.active)
    ensures ValidRun(w, events) && Timely(events)
    ensures var t := After(w, events);
            t.pc == Done(w.active) && t.active == w.active && Scrubbed(t.files, w.active) && t.files.pending == None
  {
    var w1 := Step(w, Begin);
    var w2 := Step(w1, ProbePending(Clear));
    var writes := WritesFinish(w2);
    var w3 := After(w2, writes);
    DecisionReports(w3);
    var tail := RunThen(w2, writes, Decide);
    Chain(w1, ProbePending(Clear), tail);
    TimelyMore(ProbePending(Clear), tail);
    Chain(w, Begin, [ProbePending(Clear)] + tail);
    TimelyMore(Begin, [ProbePending(Clear)] + tail);
    events := [Begin] + ([ProbePending(Clear)] + tail);
  }

  lemma {:induction false} RunThen(w: World, events: seq<Event>, e: Event) returns (longer: seq<Event>)
    requires ValidRun(w, events) && Enabled(After(w, events), e) && Timely(events) && !e.LateApply?
    ensures ValidRun(w, longer) && After(w, longer) == Step(After(w, events), e) && Timely(longer)
    ensures longer == events + [e]
    decreases |events|
  {
    if events == [] {
      Chain(w, e, []);
      longer := [e] + [];
    } else {
      assert events[0] in events && Timely(events[1..]) by {
        assert forall x :: x in events[1..] ==> x in events;
      }
      var rest := RunThen(Step(w, events[0]), events[1..], e);
      Chain(w, events[0], rest);
      TimelyMore(events[0], rest);
      longer := [events[0]] + rest;
    }
  }

  /** Recovery from rest, clearly answered: it ends on the key the server accepts, configured,
      with nothing staged. */
  ghost predicate RecoveredOn(t: World, key: Key) {
    && t.pc.Recovered? && t.pc.current == Some(key) && t.active == key
    && Configured(t.files) == Some(key) && t.files.pending == None
  }

  lemma RecoveryEnds(w: World) returns (events: seq<Event>)
    requires Safe(w) && w.pc == Idle
    ensures ValidRun(w, events) && Timely(events) && events != [] && events[0] == Begin
    ensures RecoveredOn(After(w, events), w.active)
  {
    events := RunThen(w, [], Begin);
    assert events == [Begin];
    if w.files.pending == None {
      events := RunThen(w, events, Decide);
    } else {
      events := RunThen(w, events, ProbePending(Clear));
      var u := After(w, events);
      if w.files.pending == Some(w.active) {
        var writes := WritesFinish(u);
        events := RunsJoin(w, events, writes);
      } else {
        events := RunThen(w, events, ProbeCurrent(Clear));
        events := RunThen(w, events, Write);
      }
    }
  }

  /** Wherever a rotation is cut off, by a crash at any step of any timely run, recovery then
      ends on the key the server accepts, configured, with nothing staged. */
  lemma ACrashIsRecoveredFrom(w: World, run: seq<Event>) returns (events: seq<Event>)
    requires Start(w) && ValidRun(w, run) && Timely(run)
    ensures var u := After(w, run);
            && ValidRun(u, events) && Timely(events) && |events| > 1 && events[0] == Crash && events[1] == Begin
            && RecoveredOn(After(u, events), u.active)
  {
    RunKeepsInv(w, run);
    var u := After(w, run);
    var rest := RecoveryEnds(Step(u, Crash));
    Chain(u, Crash, rest);
    TimelyMore(Crash, rest);
    events := [Crash] + rest;
  }

  /** A rotation nothing disturbs goes through: the server takes the replacement, and it is
      reported, configured alone, and nothing is staged. */
  lemma RotationGoesThrough(w: World, replacement: Key) returns (events: seq<Event>)
    requires Start(w) && w.files.pending == None
    ensures ValidRun(w, events) && Timely(events)
    ensures var t := After(w, events);
            && t.pc == Done(replacement) && t.active == replacement
            && Scrubbed(t.files, replacement) && t.files.pending == None && t.inFlight == None
  {
    events := Sent(w, replacement);
    var w1 := After(w, events);
    events := RunThen(w, events, ServerApplies);
    events := RunThen(w, events, PostReturns(false));
    events := RunThen(w, events, ProbePending(Clear));
    var w2 := After(w, events);
    var writes := WritesFinish(w2);
    DecisionReports(After(w2, writes));
    var tail := RunThen(w2, writes, Decide);
    events := RunsJoin(w, events, tail);
  }

  /** Up to the request: the replacement is staged and the request is out. */
  lemma Sent(w: World, replacement: Key) returns (events: seq<Event>)
    requires Start(w) && w.files.pending == None
    ensures ValidRun(w, events) && Timely(events)
    ensures var t := After(w, events);
            && t == w.(files := w.files.(pending := Some(replacement)), inFlight := t.inFlight, pc := t.pc)
            && t.inFlight == Some(Request(w.active, replacement)) && t.pc == Awaiting(w.active, replacement)
  {
    events := RunThen(w, [], Begin);
    events := RunThen(w, events, Decide);
    events := RunThen(w, events, Stage(replacement));
    events := RunThen(w, events, Post);
  }

  lemma {:induction false} RunsJoin(w: World, a: seq<Event>, b: seq<Event>) returns (both: seq<Event>)
    requires ValidRun(w, a) && Timely(a) && ValidRun(After(w, a), b) && Timely(b)
    ensures ValidRun(w, both) && Timely(both) && After(w, both) == After(After(w, a), b) && both == a + b
    decreases |a|
  {
    if a == [] {
      both := b;
    } else {
      assert a[0] in a && Timely(a[1..]) by {
        assert forall x :: x in a[1..] ==> x in a;
      }
      var rest := RunsJoin(Step(w, a[0]), a[1..], b);
      Chain(w, a[0], rest);
      TimelyMore(a[0], rest);
      both := [a[0]] + rest;
    }
  }

  /** A request the server never acts on leaves the old key in use, nothing staged, and the
      rotation reported as failed, not as done. */
  lemma RefusedRotationKeepsTheKey(w: World, replacement: Key) returns (events: seq<Event>)
    requires Start(w) && w.files.pending == None && replacement != w.active
    ensures ValidRun(w, events) && Timely(events)
    ensures var t := After(w, events);
            t.pc == Failed(false) && t.active == w.active && t.files == w.files && Configured(t.files) == Some(w.active)
  {
    events := Sent(w, replacement);
    events := RunThen(w, events, PostReturns(false));
    events := RunThen(w, events, ProbePending(Clear));
    events := RunThen(w, events, ProbeCurrent(Clear));
    events := RunThen(w, events, Write);
    DecisionReports(After(w, events));
    events := RunThen(w, events, Decide);
  }

  // ----------------------------------------------------------------- the updater

  datatype Outcome = Usable(key: Key) | NoKey | Unresolved | Unclear

  /** The credential files, with the operations that write them in place. */
  class CredentialFiles {
    var files: Files

    constructor (files: Files)
      ensures this.files == files
    {
      this.files := files;
    }

    method PersistAuthKey(key: Key)
      modifies this
      ensures Scrubbed(files, key)
      ensures files.pending == old(files).pending && files.environment == old(files).environment
    {
      files := files.(glass := Some(key));
      files := files.(nested := None);
      files := files.(dotenvUpdate := None);
      files := files.(dotenvGlass := None);
      files := files.(envPyUpdate := None);
      files := files.(envPyGlass := None);
    }

    method ClearPendingAuthKey()
      modifies this
      ensures files == old(files).(pending := None)
    {
      files := files.(pending := None);
    }

    /** Recovery against a server that accepts `active` alone. */
    method RecoverPendingAuthKey(current: Option<Key>, active: Key, ofPending: Answer, ofCurrent: Answer)
      returns (r: Outcome)
      requires current == Configured(files)
      modifies this
      ensures old(files).pending == None ==>
        files == old(files) && r == if current.Some? then Usable(current.value) else NoKey
      ensures r.Usable? && old(files).pending.Some? ==>
        r.key == active && Configured(files) == Some(active) && files.pending == None
      ensures r.Unresolved? ==>
        files == old(files)
        && (ofPending.Odd? || ofCurrent.Odd? || (current != Some(active) && old(files).pending != Some(active)))
      ensures r.Unclear? ==> files == old(files) && (ofPending.Raises? || ofCurrent.Raises?)
      ensures old(files).pending.Some? && ofPending.Clear? && ofCurrent.Clear? ==>
        (r == Usable(active) <==> current == Some(active) || old(files).pending == Some(active))
      ensures old(files).pending == Some(active) && ofPending.Clear? ==> Scrubbed(files, active)
    {
      if files.pending == None {
        return if current.Some? then Usable(current.value) else NoKey;
      }
      var pending := files.pending.value;
      if ofPending.Clear? && pending == active {
        PersistAuthKey(pending);
        ClearPendingAuthKey();
        return Usable(pending);
      }
      if ofPending.Raises? {
        return Unclear;
      }
      if current.Some? {
        if ofCurrent.Clear? && current.value == active {
          ClearPendingAuthKey();
          return Usable(current.value);
        }
        if ofCurrent.Raises? {
          return Unclear;
        }
      }
      return Unresolved;
    }
  }
}
