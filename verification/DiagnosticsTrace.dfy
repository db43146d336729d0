/** The trace and its recovery as they run: fields updated by each call, totals and
    replay accumulated in loops. */
module DiagnosticsTrace {
  import opened Common
  import opened DiagnosticsModel
  import opened DiagnosticsEffects

  lemma {:induction false} RunSnoc(t: Trace, ops: seq<Op>, op: Op)
    requires ValidRun(t, ops) && Enabled(After(t, ops), op)
    ensures ValidRun(t, ops + [op]) && After(t, ops + [op]) == Step(After(t, ops), op)
    decreases |ops|
  {
    if ops == [] {
      assert [] + [op] == [op] && [op][1..] == [];
    } else {
      RunSnoc(Step(t, ops[0]), ops[1..], op);
      assert (ops + [op])[1..] == ops[1..] + [op];
    }
  }

  /** Replay never lists a span it does not know, whatever the log. */
  lemma {:induction false} OrderIsKnown(log: seq<Record>)
    ensures forall i :: 0 <= i < |Replay(log).order| ==> Replay(log).order[i] in Replay(log).spans
    ensures forall id :: id in Replay(log).spans ==> id in Replay(log).order
  {
    if log != [] {
      OrderIsKnown(log[..|log| - 1]);
    }
  }

  class LiveTrace {
    var spans: seq<Span>
    var notes: seq<Note>
    var stacks: map<nat, seq<nat>>
    var log: seq<Record>
    var droppedSpans: nat
    var droppedEvents: nat
    var closed: bool

    ghost function State(): Trace
      reads this
    {
      Trace(spans, notes, stacks, log, droppedSpans, droppedEvents, closed)
    }

    constructor ()
      ensures State() == Fresh()
    {
      spans, notes, stacks, log := [], [], map[], [RunStart];
      droppedSpans, droppedEvents, closed := 0, 0, false;
    }

    method OpenSpan(context: nat, name: string, now: int, mono: int)
      modifies this
      ensures State() == Step(old(State()), Op.OpenSpan(context, name, now, mono))
      ensures |old(spans)| >= 9000 ==> State() == old(State()).(droppedSpans := old(droppedSpans) + 1)
      ensures |old(spans)| < 9000 ==>
        && spans[..|spans| - 1] == old(spans) && droppedSpans == old(droppedSpans)
        && spans[|spans| - 1].head.id == |old(spans)| && spans[|spans| - 1].head.name == name
        && spans[|spans| - 1].head.start == now && spans[|spans| - 1].started == mono
        && log == old(log) + [SpanStart(spans[|spans| - 1].head)]
    {
      if |spans| >= MAX_TRACE_SPANS {
        droppedSpans := droppedSpans + 1;
        return;
      }
      var stack := if context in stacks then stacks[context] else [];
      var parent := if stack == [] then None else Some(stack[|stack| - 1]);
      var path := if parent.Some? && parent.value < |spans| then spans[parent.value].head.path + ">" + name else name;
      var head := Head(|spans|, parent, name, path, now);
      stacks := stacks[context := stack + [|spans|]];
      spans := spans + [Span(head, mono, Ok, NO_USAGE, None, None)];
      log := log + [SpanStart(head)];
    }

    method SetTokens(span: nat, usage: Usage)
      requires Enabled(State(), Op.SetTokens(span, usage))
      modifies this
      ensures State() == Step(old(State()), Op.SetTokens(span, usage))
      ensures forall kind :: Count(spans[span].usage, kind) == Count(old(spans)[span].usage, kind) + Count(usage, kind)
      ensures spans[span].reported == Some(spans[span].usage)
    {
      var total := Plus(spans[span].usage, usage);
      spans := spans[span := spans[span].(usage := total, reported := Some(total))];
    }

    method EndSpan(context: nat, span: nat, failed: bool, now: int, mono: int)
      requires span < |spans|
      modifies this
      ensures State() == Step(old(State()), Op.EndSpan(context, span, failed, now, mono))
      ensures |spans| == |old(spans)| && spans[span].status == (if failed then Error else old(spans)[span].status)
      ensures old(spans)[span].tail == None ==> EndShown(spans[span], Some((now, mono)))
      ensures spans[span].tail.Some? && log == old(log) + [SpanEnd(spans[span].head, spans[span].tail.value)]
    {
      var ended := Finalized(spans[span], if failed then Error else spans[span].status, now, mono);
      var stack := if context in stacks then stacks[context] else [];
      stacks := stacks[context := Popped(stack, span)];
      spans := spans[span := ended];
      log := log + [SpanEnd(ended.head, ended.tail.value)];
    }

    method AddEvent(context: nat, name: string, now: int, id: nat)
      modifies this
      ensures State() == Step(old(State()), Op.AddEvent(context, name, now, id))
      ensures |old(notes)| >= 18000 ==> State() == old(State()).(droppedEvents := old(droppedEvents) + 1)
      ensures |old(notes)| < 18000 ==>
        && notes[..|notes| - 1] == old(notes) && droppedEvents == old(droppedEvents)
        && notes[|notes| - 1].id == id && notes[|notes| - 1].name == name && notes[|notes| - 1].at == now
        && log == old(log) + [Event(notes[|notes| - 1])]
    {
      if |notes| >= MAX_TRACE_EVENTS {
        droppedEvents := droppedEvents + 1;
        return;
      }
      var stack := if context in stacks then stacks[context] else [];
      var note := Note(id, if stack == [] then None else Some(stack[|stack| - 1]), name, now);
      notes := notes + [note];
      log := log + [Event(note)];
    }

    method BuildRollup() returns (total: Totals)
      ensures total == LiveTotals(spans)
      ensures total.providerCalls == |Calls(spans)| && total.rounds == |Rounds(spans)|
      ensures forall kind :: Count(total.usage, kind) == Spent(spans, kind, false)
    {
      LiveTotalsCount(spans);
      forall kind ensures Count(LiveTotals(spans).usage, kind) == Spent(spans, kind, false) {
        LiveTotalsSpend(spans, kind);
      }
      total := Totals(0, 0, NO_USAGE);
      var i := 0;
      while i < |spans|
        invariant 0 <= i <= |spans|
        invariant total == LiveTotals(spans[..i])
      {
        assert spans[..i + 1][..i] == spans[..i];
        if IsProviderCall(spans[i].head.name) {
          total := total.(providerCalls := total.providerCalls + 1, usage := Plus(total.usage, spans[i].usage));
        }
        if IsRound(spans[i].head.name) {
          total := total.(rounds := total.rounds + 1);
        }
        i := i + 1;
      }
      assert spans[..i] == spans;
    }

    /** Ends every open span, then writes the rollup; each write is a step of its own. */
    method Close(now: int, mono: int) returns (total: Totals, ghost ops: seq<Op>)
      modifies this
      ensures ValidRun(old(State()), ops) && State() == After(old(State()), ops)
      ensures closed && total == LiveTotals(spans)
      ensures old(closed) ==> ops == []
      ensures !old(closed) ==>
        && (forall i :: 0 <= i < |spans| ==> Ended(spans[i]))
        && |ops| > 0 && ops[|ops| - 1] == FinishClose
    {
      ops := [];
      if closed {
        total := BuildRollup();
        return;
      }
      var i := 0;
      while i < |spans|
        invariant 0 <= i <= |spans| && !closed
        invariant ValidRun(old(State()), ops) && State() == After(old(State()), ops)
        invariant forall j :: 0 <= j < i ==> Ended(spans[j])
        decreases |spans| - i
      {
        if spans[i].tail == None {
          RunSnoc(old(State()), ops, ForceEnd(i, now, mono));
          ops := ops + [ForceEnd(i, now, mono)];
          var ended := Finalized(spans[i], if spans[i].status == Ok then Incomplete else spans[i].status, now, mono);
          spans := spans[i := ended];
          log := log + [SpanEnd(ended.head, ended.tail.value)];
        }
        i := i + 1;
      }
      total := BuildRollup();
      RunSnoc(old(State()), ops, FinishClose);
      ops := ops + [FinishClose];
      log := log + [RunClose(total)];
      closed := true;
    }
  }

  /** `_partial_rollup`: replays a log line by line, then totals the spans in order. */
  method PartialRollup(log: seq<Record>) returns (r: Recovery)
    ensures forall i :: 0 <= i < |Replay(log).order| ==> Replay(log).order[i] in Replay(log).spans
    ensures r == Recover(Replay(log))
  {
    var started, closedRollup := false, None;
    var seen: map<nat, Seen>, order: seq<nat>, notes: seq<Note> := map[], [], [];
    var n := 0;
    while n < |log|
      invariant 0 <= n <= |log|
      invariant Replay(log[..n]) == Replayed(started, seen, order, notes, closedRollup)
    {
      assert log[..n + 1][..n] == log[..n];
      match log[n] {
        case RunStart => started := true;
        case SpanStart(head) =>
          if head.id !in seen {
            order := order + [head.id];
          }
          seen := seen[head.id := Seen(head, None)];
        case SpanEnd(head, tail) =>
          if head.id !in seen {
            order := order + [head.id];
          }
          seen := seen[head.id := Seen(head, Some(tail))];
        case Event(note) => notes := notes + [note];
        case RunClose(rollup) => closedRollup := Some(rollup);
      }
      n := n + 1;
    }
    assert log[..n] == log;
    OrderIsKnown(log);
    if closedRollup.Some? {
      return Recovered(closedRollup.value, true);
    }
    if !started {
      return Unrecoverable;
    }
    var total := Totals(0, 0, NO_USAGE);
    var i := 0;
    while i < |order|
      invariant 0 <= i <= |order|
      invariant total == ReplayTotals(seen, order[..i])
    {
      assert order[..i + 1][..i] == order[..i];
      var span := seen[order[i]];
      if IsProviderCall(span.head.name) {
        total := total.(
        providerCalls := total.providerCalls + 1,
        usage := Plus(total.usage, ReportedUsage(span.tail)));
      }
      if IsRound(span.head.name) {
        total := total.(rounds := total.rounds + 1);
      }
      i := i + 1;
    }
    assert order[..i] == order;
    return Recovered(total, false);
  }
}
