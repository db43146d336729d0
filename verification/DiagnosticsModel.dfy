/** A run's trace in memory (`core/diagnostics.py`) and the append-only log a crash
    leaves behind, replayed by `core/glass_diag_push.py`. */
module DiagnosticsModel {
  import opened Common

  const MAX_TRACE_SPANS := 9000
  const MAX_TRACE_EVENTS := 18000

  datatype Usage = Usage(input: int, output: int, cacheRead: int, cacheCreation: int)

  const NO_USAGE := Usage(0, 0, 0, 0)

  function Plus(a: Usage, b: Usage): Usage {
    Usage(a.input + b.input, a.output + b.output, a.cacheRead + b.cacheRead, a.cacheCreation + b.cacheCreation)
  }

  function AtLeastZero(n: int): int {
    if n < 0 then 0 else n
  }

  function Clamped(u: Usage): Usage {
    Usage(AtLeastZero(u.input), AtLeastZero(u.output), AtLeastZero(u.cacheRead), AtLeastZero(u.cacheCreation))
  }

  datatype Status = Ok | Error | Incomplete | Open

  /** What a span writes when it starts. */
  datatype Head = Head(id: nat, parent: Option<nat>, name: string, path: string, start: int)

  /** What it adds when it ends; `reported` is its token metadata, absent until set. */
  datatype Tail = Tail(end: int, duration: int, status: Status, reported: Option<Usage>)

  /** A span in memory: `tail` is present once it has ended. */
  datatype Span = Span(head: Head, started: int, status: Status, usage: Usage, reported: Option<Usage>, tail: Option<Tail>)

  datatype Note = Note(id: nat, parent: Option<nat>, name: string, at: int)

  datatype Totals = Totals(providerCalls: nat, rounds: nat, usage: Usage)

  datatype Record =
    | RunStart
    | SpanStart(head: Head)
    | SpanEnd(head: Head, tail: Tail)
    | Event(note: Note)
    | RunClose(rollup: Totals)

  datatype Trace = Trace(
    spans: seq<Span>,
    notes: seq<Note>,
    stacks: map<nat, seq<nat>>,
    log: seq<Record>,
    droppedSpans: nat,
    droppedEvents: nat,
    closed: bool)

  /** `context` is the execution context (thread) an operation runs in. */
  datatype Op =
    | OpenSpan(context: nat, name: string, now: int, mono: int)
    | SetTokens(span: nat, usage: Usage)
    | EndSpan(context: nat, span: nat, failed: bool, now: int, mono: int)
    | AddEvent(context: nat, name: string, now: int, id: nat)
    | ForceEnd(span: nat, now: int, mono: int)
    | FinishClose

  function Fresh(): Trace {
    Trace([], [], map[], [RunStart], 0, 0, false)
  }

  predicate Ended(s: Span) {
    s.tail.Some?
  }

  /** Token metadata is only written while the span is open. */
  predicate Enabled(t: Trace, op: Op) {
    match op
    case OpenSpan(_, _, _, _) => true
    case SetTokens(span, _) => span < |t.spans| && !Ended(t.spans[span])
    case EndSpan(_, span, _, _, _) => span < |t.spans|
    case AddEvent(_, _, _, _) => true
    case ForceEnd(span, _, _) => !t.closed && span < |t.spans| && !Ended(t.spans[span])
    case FinishClose => !t.closed
  }

  function StackOf(t: Trace, context: nat): seq<nat> {
    if context in t.stacks then t.stacks[context] else []
  }

  function Parent(t: Trace, context: nat): Option<nat> {
    var stack := StackOf(t, context);
    if stack == [] then None else Some(stack[|stack| - 1])
  }

  function PathUnder(t: Trace, parent: Option<nat>, name: string): string {
    if parent.Some? && parent.value < |t.spans| then t.spans[parent.value].head.path + ">" + name else name
  }

  /** `stack.remove`: the first occurrence goes. */
  function Removed(stack: seq<nat>, id: nat): seq<nat> {
    if stack == [] then []
    else if stack[0] == id then stack[1..]
    else [stack[0]] + Removed(stack[1..], id)
  }

  function Popped(stack: seq<nat>, id: nat): seq<nat> {
    if stack != [] && stack[|stack| - 1] == id then stack[..|stack| - 1] else Removed(stack, id)
  }

  /** `_finalize`: only the first end fixes the times. */
  function Finalized(s: Span, status: Status, now: int, mono: int): Span {
    if s.tail.Some? then s.(status := status, tail := Some(s.tail.value.(status := status)))
    else s.(status := status, tail := Some(Tail(now, AtLeastZero(mono - s.started), status, s.reported)))
  }

  /** `_end_span` and the forced end of `close` both log the finalized span. */
  function LogEnd(t: Trace, i: nat, s: Span): Trace
    requires i < |t.spans| && s.tail.Some?
  {
    t.(spans := t.spans[i := s], log := t.log + [SpanEnd(s.head, s.tail.value)])
  }

  function Step(t: Trace, op: Op): Trace
    requires Enabled(t, op)
  {
    match op
    case OpenSpan(context, name, now, mono) =>
      if |t.spans| >= MAX_TRACE_SPANS then t.(droppedSpans := t.droppedSpans + 1)
      else
        var parent := Parent(t, context);
        var head := Head(|t.spans|, parent, name, PathUnder(t, parent, name), now);
        t.(
        spans := t.spans + [Span(head, mono, Ok, NO_USAGE, None, None)],
        stacks := t.stacks[context := StackOf(t, context) + [|t.spans|]],
        log := t.log + [SpanStart(head)])
    case SetTokens(span, usage) =>
      var total := Plus(t.spans[span].usage, usage);
      t.(spans := t.spans[span := t.spans[span].(usage := total, reported := Some(total))])
    case EndSpan(context, span, failed, now, mono) =>
      var s := Finalized(t.spans[span], if failed then Error else t.spans[span].status, now, mono);
      LogEnd(t, span, s).(stacks := t.stacks[context := Popped(StackOf(t, context), span)])
    case AddEvent(context, name, now, id) =>
      if |t.notes| >= MAX_TRACE_EVENTS then t.(droppedEvents := t.droppedEvents + 1)
      else
        var note := Note(id, Parent(t, context), name, now);
        t.(notes := t.notes + [note], log := t.log + [Event(note)])
    case ForceEnd(span, now, mono) =>
      var status := if t.spans[span].status == Ok then Incomplete else t.spans[span].status;
      LogEnd(t, span, Finalized(t.spans[span], status, now, mono))
    case FinishClose => t.(log := t.log + [RunClose(LiveTotals(t.spans))], closed := true)
  }

  // -------------------------------------------------------------------- rollups

  predicate IsProviderCall(name: string) {
    name == "provider_call"
  }

  predicate IsRound(name: string) {
    "round[" <= name
  }

  function Counted(total: Totals, name: string, usage: Usage): Totals {
    Totals(
      total.providerCalls + (if IsProviderCall(name) then 1 else 0),
      total.rounds + (if IsRound(name) then 1 else 0),
      if IsProviderCall(name) then Plus(total.usage, usage) else total.usage)
  }

  /** `_build_rollup` over the spans in memory, open or ended. */
  function LiveTotals(spans: seq<Span>): Totals {
    if spans == [] then Totals(0, 0, NO_USAGE)
    else
      var last := spans[|spans| - 1];
      Counted(LiveTotals(spans[..|spans| - 1]), last.head.name, last.usage)
  }

  // --------------------------------------------------------------------- replay

  /** A span as replay knows it: started, or ended with its last recorded tail. */
  datatype Seen = Seen(head: Head, tail: Option<Tail>)

  datatype Replayed = Replayed(started: bool, spans: map<nat, Seen>, order: seq<nat>, notes: seq<Note>, rollup: Option<Totals>)

  function Nothing(): Replayed {
    Replayed(false, map[], [], [], None)
  }

  /** One line of the log, as `_partial_rollup` takes it in. */
  function TakeIn(r: Replayed, record: Record): Replayed {
    match record
    case RunStart => r.(started := true)
    case SpanStart(head) =>
      r.(order := if head.id in r.spans then r.order else r.order + [head.id],
         spans := r.spans[head.id := Seen(head, None)])
    case SpanEnd(head, tail) =>
      r.(order := if head.id in r.spans then r.order else r.order + [head.id],
         spans := r.spans[head.id := Seen(head, Some(tail))])
    case Event(note) => r.(notes := r.notes + [note])
    case RunClose(rollup) => r.(rollup := Some(rollup))
  }

  function Replay(log: seq<Record>): Replayed {
    if log == [] then Nothing() else TakeIn(Replay(log[..|log| - 1]), log[|log| - 1])
  }

  /** The usage an ended span reported, with negative counts dropped. */
  function ReportedUsage(tail: Option<Tail>): Usage {
    if tail.Some? && tail.value.reported.Some? then Clamped(tail.value.reported.value) else NO_USAGE
  }

  function ReplayTotals(spans: map<nat, Seen>, order: seq<nat>): Totals
    requires forall i :: 0 <= i < |order| ==> order[i] in spans
  {
    if order == [] then Totals(0, 0, NO_USAGE)
    else
      var seen := spans[order[|order| - 1]];
      Counted(ReplayTotals(spans, order[..|order| - 1]), seen.head.name, ReportedUsage(seen.tail))
  }

  datatype Recovery = Unrecoverable | Recovered(totals: Totals, wasClosed: bool)

  /** A closed run keeps the rollup it wrote; an abandoned one gets a rebuilt one. */
  function Recover(r: Replayed): Recovery
    requires forall i :: 0 <= i < |r.order| ==> r.order[i] in r.spans
  {
    if r.rollup.Some? then Recovered(r.rollup.value, true)
    else if !r.started then Unrecoverable
    else Recovered(ReplayTotals(r.spans, r.order), false)
  }

  // ------------------------------------------------------------------- agreement

  function AsSeen(s: Span): Seen {
    Seen(s.head, s.tail)
  }

  ghost predicate SpanAgrees(t: Trace, r: Replayed, i: nat)
    requires i < |t.spans|
  {
    && i < |r.order| && r.order[i] == i && i in r.spans && r.spans[i] == AsSeen(t.spans[i])
    && t.spans[i].head.id == i
    && (t.spans[i].tail.Some? ==>
          t.spans[i].tail.value.reported == t.spans[i].reported && t.spans[i].tail.value.status == t.spans[i].status)
    && (t.spans[i].usage == if t.spans[i].reported.Some? then t.spans[i].reported.value else NO_USAGE)
  }

  /** The replayed log shows the spans and events of memory, in the same order. */
  ghost predicate Agrees(t: Trace) {
    && var r := Replay(t.log);
    && r.started && |r.order| == |t.spans| && r.notes == t.notes
    && (forall id :: id in r.spans ==> id < |t.spans|)
    && (forall i :: 0 <= i < |t.spans| ==> SpanAgrees(t, r, i))
    && (!t.closed ==> r.rollup == None)
  }

  lemma ReplayAppend(log: seq<Record>, record: Record)
    ensures Replay(log + [record]) == TakeIn(Replay(log), record)
  {
    assert (log + [record])[..|log|] == log;
  }

  lemma OpenAgrees(t: Trace, op: Op)
    requires Agrees(t) && op.OpenSpan?
    ensures Agrees(Step(t, op))
  {
    var out := Step(t, op);
    if |t.spans| < MAX_TRACE_SPANS {
      ReplayAppend(t.log, out.log[|t.log|]);
      forall i | 0 <= i < |out.spans| ensures SpanAgrees(out, Replay(out.log), i) {
        if i < |t.spans| {
          assert SpanAgrees(t, Replay(t.log), i);
        }
      }
    } else {
      SameSpansAgree(t, out);
    }
  }

  lemma SameSpansAgree(t: Trace, out: Trace)
    requires Agrees(t) && out.spans == t.spans && out.notes == t.notes && out.log == t.log && out.closed == t.closed
    ensures Agrees(out)
  {
    forall i | 0 <= i < |out.spans| ensures SpanAgrees(out, Replay(out.log), i) {
      assert SpanAgrees(t, Replay(t.log), i);
    }
  }

  /** A span agrees wherever its values, and what replay says of it, are the same. */
  lemma SpanStillAgrees(t: Trace, r: Replayed, out: Trace, r': Replayed, i: nat)
    requires i < |t.spans| && SpanAgrees(t, r, i)
    requires i < |out.spans| && out.spans[i] == t.spans[i]
    requires i < |r'.order| && r'.order[i] == r.order[i] && i in r'.spans && r'.spans[i] == r.spans[i]
    ensures SpanAgrees(out, r', i)
  {
  }

  lemma EndedSpanAgrees(s: Span, status: Status, now: int, mono: int)
    requires s.tail.Some? ==> s.tail.value.reported == s.reported
    ensures var e := Finalized(s, status, now, mono);
            && e.tail.Some? && e.tail.value.reported == e.reported && e.tail.value.status == e.status
            && e.head == s.head && e.usage == s.usage && e.reported == s.reported
  {
  }

  lemma EndAgrees(t: Trace, i: nat, status: Status, now: int, mono: int)
    requires Agrees(t) && i < |t.spans|
    ensures Agrees(LogEnd(t, i, Finalized(t.spans[i], status, now, mono)))
  {
    var r := Replay(t.log);
    assert SpanAgrees(t, r, i);
    EndedSpanAgrees(t.spans[i], status, now, mono);
    var s := Finalized(t.spans[i], status, now, mono);
    var out := LogEnd(t, i, s);
    var r' := TakeIn(r, SpanEnd(s.head, s.tail.value));
    ReplayAppend(t.log, SpanEnd(s.head, s.tail.value));
    assert Replay(out.log) == r' && r'.order == r.order;
    forall j | 0 <= j < |out.spans| ensures SpanAgrees(out, r', j) {
      assert SpanAgrees(t, r, j);
      if j != i {
        SpanStillAgrees(t, r, out, r', j);
      }
    }
  }

  lemma TokensAgree(t: Trace, op: Op)
    requires Agrees(t) && op.SetTokens? && Enabled(t, op)
    ensures Agrees(Step(t, op))
  {
    var out := Step(t, op);
    forall j | 0 <= j < |out.spans| ensures SpanAgrees(out, Replay(out.log), j) {
      assert SpanAgrees(t, Replay(t.log), j);
    }
  }

  /** A record that concerns no span leaves the spans as they were. */
  lemma OtherRecordAgrees(t: Trace, out: Trace, record: Record)
    requires Agrees(t) && (record.Event? || record.RunClose?)
    requires out.spans == t.spans && out.log == t.log + [record]
    requires out.notes == (if record.Event? then t.notes + [record.note] else t.notes)
    requires out.closed == (t.closed || record.RunClose?)
    ensures Agrees(out)
  {
    ReplayAppend(t.log, record);
    var r, r' := Replay(t.log), Replay(out.log);
    forall j | 0 <= j < |out.spans| ensures SpanAgrees(out, r', j) {
      assert SpanAgrees(t, r, j);
      SpanStillAgrees(t, r, out, r', j);
    }
  }

  lemma NoteAgrees(t: Trace, op: Op)
    requires Agrees(t) && (op.AddEvent? || op.FinishClose?) && Enabled(t, op)
    ensures Agrees(Step(t, op))
  {
    var out := Step(t, op);
    if out.log == t.log {
      SameSpansAgree(t, out);
    } else {
      OtherRecordAgrees(t, out, out.log[|t.log|]);
    }
  }

  lemma StepAgrees(t: Trace, op: Op)
    requires Agrees(t) && Enabled(t, op)
    ensures Agrees(Step(t, op))
  {
    match op
    case OpenSpan(_, _, _, _) => OpenAgrees(t, op);
    case SetTokens(_, _) => TokensAgree(t, op);
    case EndSpan(context, span, failed, now, mono) =>
      var status := if failed then Error else t.spans[span].status;
      EndAgrees(t, span, status, now, mono);
      SameSpansAgree(LogEnd(t, span, Finalized(t.spans[span], status, now, mono)), Step(t, op));
    case AddEvent(_, _, _, _) => NoteAgrees(t, op);
    case ForceEnd(span, now, mono) =>
      EndAgrees(t, span, if t.spans[span].status == Ok then Incomplete else t.spans[span].status, now, mono);
    case FinishClose => NoteAgrees(t, op);
  }

  // -------------------------------------------------------------------- theorems

  predicate ValidRun(t: Trace, ops: seq<Op>)
    decreases |ops|
  {
    ops == [] || (Enabled(t, ops[0]) && ValidRun(Step(t, ops[0]), ops[1..]))
  }

  function After(t: Trace, ops: seq<Op>): Trace
    requires ValidRun(t, ops)
    decreases |ops|
  {
    if ops == [] then t else After(Step(t, ops[0]), ops[1..])
  }

  lemma {:induction false} RunAgrees(t: Trace, ops: seq<Op>)
    requires Agrees(t) && ValidRun(t, ops)
    ensures Agrees(After(t, ops))
    decreases |ops|
  {
    if ops != [] {
      StepAgrees(t, ops[0]);
      RunAgrees(Step(t, ops[0]), ops[1..]);
    }
  }

  lemma FreshAgrees()
    ensures Agrees(Fresh())
  {
    ReplayAppend([], RunStart);
    assert [] + [RunStart] == [RunStart];
  }

  /** Stop a run anywhere: what its log replays to is what was in memory, span for
      span and event for event, in order. */
  lemma CrashReplayAgrees(ops: seq<Op>)
    requires ValidRun(Fresh(), ops)
    ensures var t := After(Fresh(), ops);
            var r := Replay(t.log);
            && |r.order| == |t.spans| && r.notes == t.notes
            && (forall i :: 0 <= i < |t.spans| ==> r.order[i] in r.spans && r.spans[r.order[i]] == AsSeen(t.spans[i]))
  {
    FreshAgrees();
    RunAgrees(Fresh(), ops);
    var t := After(Fresh(), ops);
    forall i | 0 <= i < |t.spans| ensures Replay(t.log).order[i] in Replay(t.log).spans {
      assert SpanAgrees(t, Replay(t.log), i);
    }
    forall i | 0 <= i < |t.spans| ensures Replay(t.log).spans[Replay(t.log).order[i]] == AsSeen(t.spans[i]) {
      assert SpanAgrees(t, Replay(t.log), i);
    }
  }

  /** The usage of the provider calls that had ended, negative counts dropped. */
  function EndedUsage(spans: seq<Span>): Usage {
    if spans == [] then NO_USAGE
    else
      var last := spans[|spans| - 1];
      var earlier := EndedUsage(spans[..|spans| - 1]);
      if IsProviderCall(last.head.name) && Ended(last) then Plus(earlier, Clamped(last.usage)) else earlier
  }

  /** What a replayed span needs to show for its usage to be counted right. */
  predicate ShowsUsage(s: Span, seen: Seen) {
    && seen == AsSeen(s)
    && (s.tail.Some? ==> s.tail.value.reported == s.reported)
    && s.usage == if s.reported.Some? then s.reported.value else NO_USAGE
  }

  lemma CountedShows(live: Totals, ended: Usage, s: Span, seen: Seen)
    requires ShowsUsage(s, seen)
    ensures Counted(live.(usage := ended), seen.head.name, ReportedUsage(seen.tail))
         == Counted(live, s.head.name, s.usage).(
              usage := if IsProviderCall(s.head.name) && Ended(s) then Plus(ended, Clamped(s.usage)) else ended)
  {
    assert Plus(ended, NO_USAGE) == ended && Clamped(NO_USAGE) == NO_USAGE;
  }

  lemma {:induction false} TotalsOfList(spans: seq<Span>, seen: map<nat, Seen>, order: seq<nat>)
    requires |order| == |spans|
    requires forall i :: 0 <= i < |order| ==> order[i] in seen
    requires forall i :: 0 <= i < |order| ==> ShowsUsage(spans[i], seen[order[i]])
    ensures ReplayTotals(seen, order) == LiveTotals(spans).(usage := EndedUsage(spans))
    decreases |spans|
  {
    if spans != [] {
      var n := |spans| - 1;
      TotalsOfList(spans[..n], seen, order[..n]);
      CountedShows(LiveTotals(spans[..n]), EndedUsage(spans[..n]), spans[n], seen[order[n]]);
    }
  }

  /** An abandoned run is recovered with the provider calls and rounds memory had, and
      with exactly the usage of the provider calls that had ended. */
  lemma AbandonedRunTotals(ops: seq<Op>)
    requires ValidRun(Fresh(), ops) && !After(Fresh(), ops).closed
    ensures var t := After(Fresh(), ops);
            var r := Replay(t.log);
            && (forall i :: 0 <= i < |r.order| ==> r.order[i] in r.spans)
            && Recover(r) == Recovered(LiveTotals(t.spans).(usage := EndedUsage(t.spans)), false)
  {
    FreshAgrees();
    RunAgrees(Fresh(), ops);
    var t := After(Fresh(), ops);
    var r := Replay(t.log);
    forall i | 0 <= i < |t.spans| ensures r.order[i] in r.spans && ShowsUsage(t.spans[i], r.spans[r.order[i]]) {
      assert SpanAgrees(t, r, i);
    }
    TotalsOfList(t.spans, r.spans, r.order);
  }

  predicate NonNegative(u: Usage) {
    u.input >= 0 && u.output >= 0 && u.cacheRead >= 0 && u.cacheCreation >= 0
  }

  ghost predicate AllCounted(spans: seq<Span>) {
    forall i :: 0 <= i < |spans| && IsProviderCall(spans[i].head.name) && !Ended(spans[i]) ==> spans[i].usage == NO_USAGE
  }

  predicate NoMore(a: Usage, b: Usage) {
    a.input <= b.input && a.output <= b.output && a.cacheRead <= b.cacheRead && a.cacheCreation <= b.cacheCreation
  }

  /** The usage of one more span, counted live and counted when ended. */
  lemma OneMoreUsage(ended: Usage, live: Usage, s: Span)
    requires NonNegative(s.usage) && NoMore(ended, live)
    ensures var ended' := if IsProviderCall(s.head.name) && Ended(s) then Plus(ended, Clamped(s.usage)) else ended;
            var live' := if IsProviderCall(s.head.name) then Plus(live, s.usage) else live;
            && NoMore(ended', live')
            && (ended' == live' <==> ended == live && (IsProviderCall(s.head.name) && !Ended(s) ==> s.usage == NO_USAGE))
  {
  }

  lemma {:induction false} UsageOnlyMissesOpenCalls(spans: seq<Span>)
    requires forall i :: 0 <= i < |spans| ==> NonNegative(spans[i].usage)
    ensures EndedUsage(spans) == LiveTotals(spans).usage <==> AllCounted(spans)
    ensures NoMore(EndedUsage(spans), LiveTotals(spans).usage)
  {
    if spans != [] {
      var n := |spans| - 1;
      UsageOnlyMissesOpenCalls(spans[..n]);
      OneMoreUsage(EndedUsage(spans[..n]), LiveTotals(spans[..n]).usage, spans[n]);
      assert AllCounted(spans) <==>
        AllCounted(spans[..n]) && (IsProviderCall(spans[n].head.name) && !Ended(spans[n]) ==> spans[n].usage == NO_USAGE)
      by {
        assert forall i :: 0 <= i < n ==> spans[..n][i] == spans[i];
      }
    }
  }

  /** For real counts, recovery equals the live totals exactly when no provider call
      was still open with usage on it. */
  lemma RecoveryMatchesMemory(ops: seq<Op>)
    requires ValidRun(Fresh(), ops) && !After(Fresh(), ops).closed
    requires forall i :: 0 <= i < |After(Fresh(), ops).spans| ==> NonNegative(After(Fresh(), ops).spans[i].usage)
    ensures var t := After(Fresh(), ops);
            && (forall i :: 0 <= i < |Replay(t.log).order| ==> Replay(t.log).order[i] in Replay(t.log).spans)
            && (Recover(Replay(t.log)) == Recovered(LiveTotals(t.spans), false) <==> AllCounted(t.spans))
  {
    AbandonedRunTotals(ops);
    UsageOnlyMissesOpenCalls(After(Fresh(), ops).spans);
  }

  /** Nothing recorded after a run closed changes the rollup it is recovered with. */
  lemma {:induction false} ClosedKeepsItsRollup(t: Trace, rollup: Totals, ops: seq<Op>)
    requires t.closed && Replay(t.log).rollup == Some(rollup) && ValidRun(t, ops)
    ensures After(t, ops).closed && Replay(After(t, ops).log).rollup == Some(rollup)
    decreases |ops|
  {
    if ops != [] {
      var out := Step(t, ops[0]);
      assert out.log == t.log || |out.log| == |t.log| + 1;
      if out.log != t.log {
        assert out.log == t.log + [out.log[|t.log|]];
        ReplayAppend(t.log, out.log[|t.log|]);
      }
      ClosedKeepsItsRollup(out, rollup, ops[1..]);
    }
  }

  /** Closing writes the live totals, and that is what recovery returns from then on. */
  lemma ClosedRunTotals(before: seq<Op>, after: seq<Op>)
    requires ValidRun(Fresh(), before) && Enabled(After(Fresh(), before), FinishClose)
    requires ValidRun(Step(After(Fresh(), before), FinishClose), after)
    ensures var t := After(Fresh(), before);
            var r := Replay(After(Step(t, FinishClose), after).log);
            && (forall i :: 0 <= i < |r.order| ==> r.order[i] in r.spans)
            && Recover(r) == Recovered(LiveTotals(t.spans), true)
  {
    var t := After(Fresh(), before);
    var closed := Step(t, FinishClose);
    FreshAgrees();
    RunAgrees(Fresh(), before);
    StepAgrees(t, FinishClose);
    RunAgrees(closed, after);
    ReplayAppend(t.log, RunClose(LiveTotals(t.spans)));
    ClosedKeepsItsRollup(closed, LiveTotals(t.spans), after);
    var end := After(closed, after);
    forall i | 0 <= i < |Replay(end.log).order| ensures Replay(end.log).order[i] in Replay(end.log).spans {
      assert SpanAgrees(end, Replay(end.log), i);
    }
  }
}
