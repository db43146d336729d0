/** What a run's trace holds after any run, read off the calls that were made: what was kept
    and what was counted as dropped, which span is the innermost open one of a context, what
    usage a span adds up to, when it ended, and what the totals count. */
module DiagnosticsEffects {
  import opened Common
  import opened DiagnosticsModel

  // ------------------------------------------------------------- kept and dropped

  function SpanCalls(ops: seq<Op>): nat {
    if ops == [] then 0 else (if ops[0].OpenSpan? then 1 else 0) + SpanCalls(ops[1..])
  }

  function EventCalls(ops: seq<Op>): nat {
    if ops == [] then 0 else (if ops[0].AddEvent? then 1 else 0) + EventCalls(ops[1..])
  }

  /** Up to the limits everything is kept, beyond them everything is counted. */
  ghost predicate KeptOrCounted(t: Trace, spanCalls: nat, eventCalls: nat) {
    && |t.spans| == (if spanCalls <= 9000 then spanCalls else 9000) && |t.spans| + t.droppedSpans == spanCalls
    && |t.notes| == (if eventCalls <= 18000 then eventCalls else 18000) && |t.notes| + t.droppedEvents == eventCalls
  }

  lemma {:induction false} KeptAlong(t: Trace, ops: seq<Op>, spanCalls: nat, eventCalls: nat)
    requires ValidRun(t, ops) && KeptOrCounted(t, spanCalls, eventCalls)
    ensures KeptOrCounted(After(t, ops), spanCalls + SpanCalls(ops), eventCalls + EventCalls(ops))
    decreases |ops|
  {
    if ops != [] {
      KeptAlong(Step(t, ops[0]), ops[1..], spanCalls + (if ops[0].OpenSpan? then 1 else 0),
                eventCalls + (if ops[0].AddEvent? then 1 else 0));
    }
  }

  /** No span or event disappears: each is in the trace or counted as dropped, and none is
      dropped before the trace is full. */
  lemma NothingDisappears(ops: seq<Op>)
    requires ValidRun(Fresh(), ops)
    ensures KeptOrCounted(After(Fresh(), ops), SpanCalls(ops), EventCalls(ops))
  {
    KeptAlong(Fresh(), ops, 0, 0);
  }

  // ------------------------------------------------------------- the open spans

  /** The call opens the span of this number in the context. */
  predicate Opens(t: Trace, op: Op, context: nat, id: nat) {
    op.OpenSpan? && op.context == context && |t.spans| == id < 9000
  }

  predicate Ends(op: Op, context: nat, id: nat) {
    op.EndSpan? && op.context == context && op.span == id
  }

  /** Whether the context opened the span and has not ended it since. */
  predicate OpenAlong(t: Trace, ops: seq<Op>, context: nat, id: nat, open: bool)
    requires ValidRun(t, ops)
    decreases |ops|
  {
    if ops == [] then open
    else OpenAlong(Step(t, ops[0]), ops[1..], context, id,
                   if Opens(t, ops[0], context, id) then true
                   else if Ends(ops[0], context, id) then false
                   else open)
  }

  ghost predicate Rising(stack: seq<nat>, below: nat) {
    && (forall i, j :: 0 <= i < j < |stack| ==> stack[i] < stack[j])
    && (forall i :: 0 <= i < |stack| ==> stack[i] < below)
  }

  ghost predicate StacksRise(t: Trace) {
    forall c :: Rising(StackOf(t, c), |t.spans|)
  }

  lemma {:induction false} RemovedFrom(stack: seq<nat>, id: nat, below: nat)
    requires Rising(stack, below)
    ensures Rising(Removed(stack, id), below)
    ensures forall x :: x in Removed(stack, id) <==> x in stack && x != id
  {
    if stack != [] {
      var rest := stack[1..];
      assert forall i :: 0 <= i < |rest| ==> rest[i] == stack[i + 1];
      assert forall x :: x in stack <==> x == stack[0] || x in rest;
      RemovedFrom(rest, id, below);
      forall x | x in rest ensures stack[0] < x {
        var i :| 0 <= i < |rest| && rest[i] == x;
        assert stack[i + 1] == x;
      }
      if stack[0] != id {
        var less := Removed(rest, id);
        forall i | 0 <= i < |less| ensures stack[0] < less[i] {
          assert less[i] in rest;
        }
      }
    }
  }

  lemma PoppedFrom(stack: seq<nat>, id: nat, below: nat)
    requires Rising(stack, below)
    ensures Rising(Popped(stack, id), below)
    ensures forall x :: x in Popped(stack, id) <==> x in stack && x != id
  {
    if stack != [] && stack[|stack| - 1] == id {
      var front := stack[..|stack| - 1];
      assert stack == front + [id];
      assert forall x :: x in stack <==> x in front || x == id;
    } else {
      RemovedFrom(stack, id, below);
    }
  }

  /** The stack of one context after a call, rising, with this span on it or not. */
  ghost predicate StackSays(t: Trace, op: Op, u: Trace, c: nat, id: nat) {
    && Rising(StackOf(u, c), |u.spans|)
    && (id in StackOf(u, c) <==> Opens(t, op, c, id) || (id in StackOf(t, c) && !Ends(op, c, id)))
  }

  lemma OpenStacks(t: Trace, op: Op, c: nat, id: nat)
    requires op.OpenSpan? && Rising(StackOf(t, c), |t.spans|)
    ensures StackSays(t, op, Step(t, op), c, id)
  {
  }

  lemma EndStacks(t: Trace, op: Op, c: nat, id: nat)
    requires op.EndSpan? && Enabled(t, op) && Rising(StackOf(t, c), |t.spans|)
    ensures StackSays(t, op, Step(t, op), c, id)
  {
    PoppedFrom(StackOf(t, c), op.span, |t.spans|);
  }

  lemma OtherStacks(t: Trace, op: Op, c: nat, id: nat)
    requires !op.OpenSpan? && !op.EndSpan? && Enabled(t, op) && Rising(StackOf(t, c), |t.spans|)
    ensures StackSays(t, op, Step(t, op), c, id)
  {
  }

  lemma StepStacks(t: Trace, op: Op, c: nat, id: nat)
    requires Enabled(t, op) && StacksRise(t)
    ensures StackSays(t, op, Step(t, op), c, id)
  {
    assert Rising(StackOf(t, c), |t.spans|);
    if op.OpenSpan? {
      OpenStacks(t, op, c, id);
    } else if op.EndSpan? {
      EndStacks(t, op, c, id);
    } else {
      OtherStacks(t, op, c, id);
    }
  }

  lemma StepRises(t: Trace, op: Op)
    requires Enabled(t, op) && StacksRise(t)
    ensures StacksRise(Step(t, op))
  {
    forall c ensures Rising(StackOf(Step(t, op), c), |Step(t, op).spans|) {
      StepStacks(t, op, c, 0);
    }
  }

  lemma {:induction false} StacksAlong(t: Trace, ops: seq<Op>, c: nat, id: nat)
    requires ValidRun(t, ops) && StacksRise(t)
    ensures StacksRise(After(t, ops))
    ensures id in StackOf(After(t, ops), c) <==> OpenAlong(t, ops, c, id, id in StackOf(t, c))
    decreases |ops|
  {
    if ops != [] {
      StepStacks(t, ops[0], c, id);
      StepRises(t, ops[0]);
      StacksAlong(Step(t, ops[0]), ops[1..], c, id);
    }
  }

  /** A span, or an event, goes under the span its context opened last among those it has
      not ended. */
  ghost predicate Innermost(ops: seq<Op>, c: nat, parent: Option<nat>)
    requires ValidRun(Fresh(), ops)
  {
    && (parent.Some? ==> OpenAlong(Fresh(), ops, c, parent.value, false))
    && forall id: nat :: OpenAlong(Fresh(), ops, c, id, false) ==> parent.Some? && id <= parent.value
  }

  lemma TopIsInnermost(ops: seq<Op>, c: nat)
    requires ValidRun(Fresh(), ops)
    ensures Innermost(ops, c, Parent(After(Fresh(), ops), c))
  {
    var t := After(Fresh(), ops);
    var stack := StackOf(t, c);
    forall id: nat ensures id in stack <==> OpenAlong(Fresh(), ops, c, id, false) {
      StacksAlong(Fresh(), ops, c, id);
    }
    assert Rising(stack, |t.spans|) by {
      StacksAlong(Fresh(), ops, c, 0);
    }
    if stack != [] {
      assert stack[|stack| - 1] in stack;
    }
  }

  /** What a context opens or records next is named and dated as asked, numbered in order,
      and goes under its innermost open span. */
  lemma NewGoesUnderTheInnermost(ops: seq<Op>, op: Op)
    requires ValidRun(Fresh(), ops) && (op.OpenSpan? || op.AddEvent?)
    ensures var t := After(Fresh(), ops);
            var u := Step(t, op);
            && (op.OpenSpan? && |t.spans| < 9000 ==>
                  && |u.spans| == |t.spans| + 1 && u.spans[..|t.spans|] == t.spans
                  && var head := u.spans[|t.spans|].head;
                  && head.id == |t.spans| && head.name == op.name && head.start == op.now
                  && Innermost(ops, op.context, head.parent) && u.log == t.log + [SpanStart(head)])
            && (op.AddEvent? && |t.notes| < 18000 ==>
                  && |u.notes| == |t.notes| + 1 && u.notes[..|t.notes|] == t.notes
                  && var note := u.notes[|t.notes|];
                  && note.id == op.id && note.name == op.name && note.at == op.now
                  && Innermost(ops, op.context, note.parent) && u.log == t.log + [Event(note)])
  {
    TopIsInnermost(ops, op.context);
  }

  // ------------------------------------------------------------- names and paths

  /** A span's path is its name under its parent's path. */
  ghost predicate PathsFollow(spans: seq<Span>) {
    forall i :: 0 <= i < |spans| ==> PathFollows(spans, i)
  }

  ghost predicate PathFollows(spans: seq<Span>, i: nat)
    requires i < |spans|
  {
    var head := spans[i].head;
    match head.parent
    case None => head.path == head.name
    case Some(p) => p < i && head.path == spans[p].head.path + ">" + head.name
  }

  lemma StepPaths(t: Trace, op: Op)
    requires Enabled(t, op) && StacksRise(t) && PathsFollow(t.spans)
    ensures PathsFollow(Step(t, op).spans)
  {
    var u := Step(t, op);
    assert forall i :: 0 <= i < |t.spans| ==> u.spans[i].head == t.spans[i].head;
    forall i | 0 <= i < |u.spans| ensures PathFollows(u.spans, i) {
      if i < |t.spans| {
        assert PathFollows(t.spans, i);
      } else {
        assert Rising(StackOf(t, op.context), |t.spans|);
      }
    }
  }

  lemma {:induction false} PathsAlong(t: Trace, ops: seq<Op>)
    requires ValidRun(t, ops) && StacksRise(t) && PathsFollow(t.spans)
    ensures PathsFollow(After(t, ops).spans)
    decreases |ops|
  {
    if ops != [] {
      StepRises(t, ops[0]);
      StepPaths(t, ops[0]);
      PathsAlong(Step(t, ops[0]), ops[1..]);
    }
  }

  lemma PathsNameTheAncestors(ops: seq<Op>)
    requires ValidRun(Fresh(), ops)
    ensures PathsFollow(After(Fresh(), ops).spans)
  {
    PathsAlong(Fresh(), ops);
  }

  // ------------------------------------------------------------- usage and times

  datatype Kind = Input | Output | CacheRead | CacheCreation

  function Count(u: Usage, kind: Kind): int {
    match kind
    case Input => u.input
    case Output => u.output
    case CacheRead => u.cacheRead
    case CacheCreation => u.cacheCreation
  }

  /** One kind of tokens over all calls that recorded usage on the span. */
  function Recorded(ops: seq<Op>, span: nat, kind: Kind): int {
    if ops == [] then 0
    else (if ops[0].SetTokens? && ops[0].span == span then Count(ops[0].usage, kind) else 0)
         + Recorded(ops[1..], span, kind)
  }

  predicate UsageIs(t: Trace, span: nat, kind: Kind, total: int) {
    if span < |t.spans| then
      && Count(t.spans[span].usage, kind) == total
      && (t.spans[span].reported.Some? ==> t.spans[span].reported.value == t.spans[span].usage)
    else total == 0
  }

  lemma {:induction false} UsageAlong(t: Trace, ops: seq<Op>, span: nat, kind: Kind, total: int)
    requires ValidRun(t, ops) && UsageIs(t, span, kind, total)
    ensures UsageIs(After(t, ops), span, kind, total + Recorded(ops, span, kind))
    decreases |ops|
  {
    if ops != [] {
      var more := if ops[0].SetTokens? && ops[0].span == span then Count(ops[0].usage, kind) else 0;
      UsageAlong(Step(t, ops[0]), ops[1..], span, kind, total + more);
    }
  }

  /** A span's usage is all that was recorded on it. */
  lemma UsageAddsUp(ops: seq<Op>, span: nat, kind: Kind)
    requires ValidRun(Fresh(), ops) && span < |After(Fresh(), ops).spans|
    ensures Count(After(Fresh(), ops).spans[span].usage, kind) == Recorded(ops, span, kind)
  {
    UsageAlong(Fresh(), ops, span, kind, 0);
  }

  // ------------------------------------------------------------- the end of a span

  predicate EndsSpan(op: Op, span: nat) {
    (op.EndSpan? || op.ForceEnd?) && op.span == span
  }

  /** When the span was ended first: the wall clock and the monotonic clock of that call. */
  function FirstEnd(ops: seq<Op>, span: nat): Option<(int, int)> {
    if ops == [] then None
    else if EndsSpan(ops[0], span) then Some((ops[0].now, ops[0].mono))
    else FirstEnd(ops[1..], span)
  }

  /** Whether the first call that ended the span is the one the span shows. */
  predicate EndShown(s: Span, first: Option<(int, int)>) {
    match first
    case None => s.tail == None
    case Some(at) =>
      && s.tail.Some? && s.tail.value.end == at.0
      && s.tail.value.duration == (if at.1 < s.started then 0 else at.1 - s.started)
  }

  lemma {:induction false} EndAlong(t: Trace, ops: seq<Op>, span: nat)
    requires ValidRun(t, ops) && span < |t.spans|
    ensures span < |After(t, ops).spans| && After(t, ops).spans[span].started == t.spans[span].started
    ensures t.spans[span].tail == None ==> EndShown(After(t, ops).spans[span], FirstEnd(ops, span))
    ensures t.spans[span].tail.Some? ==>
      && After(t, ops).spans[span].tail.Some?
      && After(t, ops).spans[span].tail.value.end == t.spans[span].tail.value.end
      && After(t, ops).spans[span].tail.value.duration == t.spans[span].tail.value.duration
    decreases |ops|
  {
    if ops != [] {
      EndAlong(Step(t, ops[0]), ops[1..], span);
    }
  }

  /** A span opened at some point of a run ends when it is ended first, and never again. */
  lemma OnlyTheFirstEndCounts(before: seq<Op>, open: Op, after: seq<Op>)
    requires ValidRun(Fresh(), before) && open.OpenSpan? && |After(Fresh(), before).spans| < 9000
    requires ValidRun(Step(After(Fresh(), before), open), after)
    ensures var span := |After(Fresh(), before).spans|;
            var t := After(Step(After(Fresh(), before), open), after);
            && span < |t.spans| && t.spans[span].started == open.mono && EndShown(t.spans[span], FirstEnd(after, span))
  {
    EndAlong(Step(After(Fresh(), before), open), after, |After(Fresh(), before).spans|);
  }

  /** Ending a span reports failure exactly where the call failed or an earlier one had; a
      close reports what was still open as incomplete; either is logged with all it shows. */
  lemma EndingReports(t: Trace, op: Op)
    requires Enabled(t, op) && (op.EndSpan? || op.ForceEnd?)
    ensures var s, u := t.spans[op.span], Step(t, op);
            && |u.spans| == |t.spans| && (forall i :: 0 <= i < |t.spans| && i != op.span ==> u.spans[i] == t.spans[i])
            && var e := u.spans[op.span];
            && e.head == s.head && e.usage == s.usage && e.tail.Some? && e.tail.value.status == e.status
            && e.status == (if op.EndSpan? && op.failed then Error
                            else if op.ForceEnd? && s.status == Ok then Incomplete
                            else s.status)
            && (s.tail == None ==> e.tail.value.reported == s.reported)
            && u.log == t.log + [SpanEnd(e.head, e.tail.value)]
            && u.notes == t.notes && u.droppedSpans == t.droppedSpans && u.droppedEvents == t.droppedEvents
  {
  }

  // ------------------------------------------------------------- the totals

  /** The spans of one name, and those whose name begins a round. */
  function Calls(spans: seq<Span>): set<nat> {
    set i: nat | i < |spans| && spans[i].head.name == "provider_call"
  }

  predicate BeginsRound(name: string) {
    |name| >= 6 && name[..6] == "round["
  }

  function Rounds(spans: seq<Span>): set<nat> {
    set i: nat | i < |spans| && BeginsRound(spans[i].head.name)
  }

  /** One kind of tokens over the provider calls, those that had ended and no less than zero
      each where `ended` is set. */
  function Spent(spans: seq<Span>, kind: Kind, ended: bool): int {
    if spans == [] then 0
    else
      var s, earlier := spans[|spans| - 1], Spent(spans[..|spans| - 1], kind, ended);
      if s.head.name != "provider_call" || (ended && s.tail == None) then earlier
      else if ended && Count(s.usage, kind) < 0 then earlier
      else earlier + Count(s.usage, kind)
  }

  lemma RoundNames(name: string)
    ensures IsRound(name) <==> BeginsRound(name)
  {
  }

  lemma CallsGrow(front: seq<Span>, s: Span)
    ensures |Calls(front + [s])| == |Calls(front)| + (if s.head.name == "provider_call" then 1 else 0)
  {
    var spans, n: nat := front + [s], |front|;
    assert Calls(spans) == Calls(front) + (if s.head.name == "provider_call" then {n} else {});
  }

  lemma RoundsGrow(front: seq<Span>, s: Span)
    ensures |Rounds(front + [s])| == |Rounds(front)| + (if BeginsRound(s.head.name) then 1 else 0)
  {
    var spans, n: nat := front + [s], |front|;
    assert Rounds(spans) == Rounds(front) + (if BeginsRound(s.head.name) then {n} else {});
  }

  /** The totals count the provider calls and the rounds. */
  lemma {:induction false} LiveTotalsCount(spans: seq<Span>)
    ensures LiveTotals(spans).providerCalls == |Calls(spans)| && LiveTotals(spans).rounds == |Rounds(spans)|
  {
    if spans != [] {
      var front, s := spans[..|spans| - 1], spans[|spans| - 1];
      LiveTotalsCount(front);
      assert spans == front + [s];
      CallsGrow(front, s);
      RoundsGrow(front, s);
      RoundNames(s.head.name);
    }
  }

  /** They add up the usage of the provider calls; recovery that of the calls that ended. */
  lemma {:induction false} LiveTotalsSpend(spans: seq<Span>, kind: Kind)
    ensures Count(LiveTotals(spans).usage, kind) == Spent(spans, kind, false)
    ensures Count(EndedUsage(spans), kind) == Spent(spans, kind, true)
  {
    if spans != [] {
      LiveTotalsSpend(spans[..|spans| - 1], kind);
    }
  }
}
