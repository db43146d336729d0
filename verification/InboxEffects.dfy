/** What the inbox does on each event, said without the functions that compute it, and
    that a pass nothing disturbs hands over everything the file holds. */
module InboxEffects {
  import opened Common
  import opened MaintenanceModel
  import opened MaintenanceInvariant
  import opened IdentityFrames
  import opened InboxModel
  import opened InboxHandoff
  import E = MaintenanceEffects

  // ------------------------------------------------------------ the single events

  /** The coordinator was given the event's own texts under the event's own identity. */
  ghost predicate Offered(feed: Feed, sys: Sys, t: Sys, key: string, now: real) {
    var p, id := Prune(sys.c, now), Ingress(InterfaceEvent(key));
    && E.IngressTaken(p, t.c, true, feed.text(key).contact, feed.text(key).context, InterfaceEvent(key), now)
    && (E.Receipted(p.ingressReceipts, id) || E.Waiting(p.roots, id) ==> t.c.roots == p.roots)
  }

  /** The records in hand are ahead of all others again, and none is in hand. */
  predicate HeldBack(sys: Sys, t: Sys) {
    && t.box == sys.box.(retry := t.box.retry, hand := []) && t.box.retry == sys.box.hand + sys.box.retry
    && t.handled == 0 && t.marks == sys.marks && t.skipped == sys.skipped
  }

  lemma WithHandOffers(feed: Feed, sys: Sys, key: string, now: real)
    requires SysInv(feed, sys)
    ensures Offered(feed, sys, WithHand(feed, sys, key, now), key, now)
    ensures Mutate(Prune(sys.c, now), HandOp(feed, key), now).Some?
  {
    assert KeyInv(feed, sys, key);
    HandedKey(feed, sys, key, now);
    PruneKeepsInv(sys.c, now);
    E.IngressTakes(Prune(sys.c, now), feed.text(key).contact, feed.text(key).context, InterfaceEvent(key), now);
  }

  /** An event handed over is with the coordinator; the reader moves on once it is marked,
      and otherwise holds the whole batch back. */
  lemma HandHandsOver(feed: Feed, sys: Sys, now: real, marked: bool)
    requires SysInv(feed, sys) && Enabled(feed, sys, Hand(now, marked))
    ensures var t, key := Step(feed, sys, Hand(now, marked)), Key(feed, sys);
            && Offered(feed, sys, t, key, now)
            && (marked ==> && t.box == sys.box && t.handled == sys.handled + 1
                           && t.marks == sys.marks + {key} && t.skipped == sys.skipped)
            && (!marked ==> HeldBack(sys, t))
  {
    WithHandOffers(feed, sys, Key(feed, sys), now);
  }

  /** A hand-over that raises, before or after its effect, and a failed bookkeeping hold
      the batch back; nothing is dropped. */
  lemma FailureHoldsBack(feed: Feed, sys: Sys, e: Event)
    requires SysInv(feed, sys) && Enabled(feed, sys, e) && (e.HandFails? || e.BookkeepingFails?)
    ensures var t := Step(feed, sys, e);
            && HeldBack(sys, t)
            && (if e.HandFails? && e.effect then Offered(feed, sys, t, Key(feed, sys), e.now)
                else t.c == sys.c && t.accepted == sys.accepted)
  {
    if e.HandFails? && e.effect {
      WithHandOffers(feed, sys, Key(feed, sys), e.now);
    }
  }

  /** A malformed frame does not poison the stream: its record can be committed at once. */
  lemma FrameFailureMovesOn(feed: Feed, sys: Sys)
    requires SysInv(feed, sys) && Enabled(feed, sys, FrameFails)
    ensures var t := Step(feed, sys, FrameFails);
            && t == sys.(skipped := t.skipped, handled := t.handled) && Enabled(feed, t, CommitHead)
            && forall k :: k in t.skipped <==> k in sys.skipped || k in feed.events(sys.box.hand[0])
  {
  }

  /** A crash leaves the file, the cursor, the marks and the document; reading starts again
      from the cursor. */
  lemma CrashKeepsTheDurable(feed: Feed, sys: Sys)
    ensures var t := Step(feed, sys, Crash);
            && t == sys.(box := t.box, handled := 0)
            && t.box.file == sys.box.file && t.box.committed == sys.box.committed
            && InFlight(t.box) == [] && ScanFrom(t.box) == sys.box.committed
  {
  }

  /** Other traffic is any call on the coordinator; one that raises writes nothing. */
  lemma OtherTrafficIsAnyCall(feed: Feed, sys: Sys, op: Op, now: real)
    requires Enabled(feed, sys, Environment(op, now))
    ensures var out := Mutate(Prune(sys.c, now), op, now);
            Step(feed, sys, Environment(op, now)) == sys.(c := if out.Some? then out.value else sys.c)
  {
  }

  // ------------------------------------------------------------ the undisturbed pass

  /** Nothing fails, no process dies, no event is dropped. */
  predicate Undisturbed(e: Event) {
    match e
    case Scan(_, _) => true
    case Enqueue => true
    case DrainBatch(_) => true
    case SkipEvent(mark) => !mark
    case Hand(_, marked) => marked
    case CommitHead => true
    case _ => false
  }

  ghost predicate Passes(feed: Feed, sys: Sys, events: seq<Event>) {
    && Follows(feed, sys, events) && (forall e :: e in events ==> Undisturbed(e))
    && var t := After(feed, sys, events);
    && SysInv(feed, t) && t.skipped == sys.skipped && t.box.file == sys.box.file
  }

  lemma {:induction false} Joined(feed: Feed, sys: Sys, a: seq<Event>, b: seq<Event>)
    requires Follows(feed, sys, a) && Follows(feed, After(feed, sys, a), b)
    ensures Follows(feed, sys, a + b) && After(feed, sys, a + b) == After(feed, After(feed, sys, a), b)
    decreases |a|
  {
    if a == [] {
      assert a + b == b;
    } else {
      assert (a + b)[1..] == a[1..] + b;
      Joined(feed, Step(feed, sys, a[0]), a[1..], b);
    }
  }

  lemma PassesOn(feed: Feed, sys: Sys, a: seq<Event>, b: seq<Event>)
    requires Passes(feed, sys, a) && Passes(feed, After(feed, sys, a), b)
    ensures Passes(feed, sys, a + b) && After(feed, sys, a + b) == After(feed, After(feed, sys, a), b)
  {
    Joined(feed, sys, a, b);
  }

  lemma OneStep(feed: Feed, sys: Sys, e: Event)
    requires SysInv(feed, sys) && Enabled(feed, sys, e)
    ensures Follows(feed, sys, [e]) && After(feed, sys, [e]) == Step(feed, sys, e) && SysInv(feed, Step(feed, sys, e))
  {
    assert [e][1..] == [];
    StepKeepsInv(feed, sys, e);
  }

  /** The record in hand, moved past event by event and committed. */
  lemma {:induction false} HeadGoesThrough(feed: Feed, sys: Sys, now: real) returns (events: seq<Event>)
    requires SysInv(feed, sys) && sys.box.hand != []
    ensures Passes(feed, sys, events)
    ensures var t := After(feed, sys, events);
            t.box == sys.box.(committed := sys.box.hand[0].end, hand := sys.box.hand[1..])
    decreases |feed.events(sys.box.hand[0])| - sys.handled
  {
    if HasEvent(feed, sys) {
      var e := if Key(feed, sys) in sys.marks then SkipEvent(false) else Hand(now, true);
      if e.Hand? {
        HandHandsOver(feed, sys, now, true);
      }
      OneStep(feed, sys, e);
      var rest := HeadGoesThrough(feed, Step(feed, sys, e), now);
      PassesOn(feed, sys, [e], rest);
      events := [e] + rest;
    } else {
      OneStep(feed, sys, CommitHead);
      CommitKeepsInv(sys.box);
      events := [CommitHead];
    }
  }

  /** How far the records in flight are from the hand. */
  function Distance(b: Inbox): nat {
    if b.hand != [] then 0 else if b.retry != [] || b.queue != [] then 1 else if b.scanned != [] then 2 else 3
  }

  ghost predicate Nearer(b: Inbox, t: Inbox)
    requires InboxInv(b) && InboxInv(t)
  {
    var m, n := |Records(b.file, b.committed)|, |Records(t.file, t.committed)|;
    n < m || (n == m && Distance(t) < Distance(b))
  }

  lemma CommittedRecordLeaves(b: Inbox, t: Inbox)
    requires InboxInv(b) && InboxInv(t) && b.hand != []
    requires t == b.(committed := b.hand[0].end, hand := b.hand[1..])
    ensures Nearer(b, t)
  {
    PipelineRefinesTheFile(b);
    PipelineRefinesTheFile(t);
  }

  /** With nothing in flight the next unread line is read. */
  lemma NextLine(feed: Feed, sys: Sys) returns (e: Event)
    requires SysInv(feed, sys) && Distance(sys.box) == 3 && Records(sys.box.file, sys.box.committed) != []
    ensures e.Scan? && Enabled(feed, sys, e) && Step(feed, sys, e).box == sys.box.(scan := Some(e.to), scanned := e.lines)
    ensures e.lines != []
  {
    PipelineRefinesTheFile(sys.box);
    var from := ScanFrom(sys.box);
    var to := LineBreak(sys.box.file, from) + 1;
    ChainSnoc(sys.box.file, from, [], from);
    assert [] + [Record(from, to)] == [Record(from, to)];
    assert sys.box.scanned + [Record(from, to)] == [Record(from, to)];
    e := Scan([Record(from, to)], to);
  }

  /** One stage of the pass. */
  lemma Progress(feed: Feed, sys: Sys, now: real, limit: nat) returns (events: seq<Event>)
    requires SysInv(feed, sys) && 0 < limit && Records(sys.box.file, sys.box.committed) != []
    ensures Passes(feed, sys, events) && Nearer(sys.box, After(feed, sys, events).box)
  {
    if sys.box.hand != [] {
      events := HeadGoesThrough(feed, sys, now);
      CommittedRecordLeaves(sys.box, After(feed, sys, events).box);
    } else {
      var e := DrainBatch(limit);
      if Distance(sys.box) == 1 {
        DrainKeepsInv(sys.box, limit);
      } else if Distance(sys.box) == 2 {
        e := Enqueue;
      } else {
        e := NextLine(feed, sys);
      }
      OneStep(feed, sys, e);
      events := [e];
    }
  }

  lemma {:induction false} PassFrom(feed: Feed, sys: Sys, now: real, limit: nat) returns (events: seq<Event>)
    requires SysInv(feed, sys) && 0 < limit
    ensures Passes(feed, sys, events)
    ensures var b := After(feed, sys, events).box; Records(b.file, b.committed) == []
    decreases |Records(sys.box.file, sys.box.committed)|, Distance(sys.box)
  {
    if Records(sys.box.file, sys.box.committed) == [] {
      events := [];
    } else {
      var first := Progress(feed, sys, now, limit);
      var rest := PassFrom(feed, After(feed, sys, first), now, limit);
      PassesOn(feed, sys, first, rest);
      events := first + rest;
    }
  }

  /** In any reachable state, crashed or not, let more bytes arrive: at any clock and with
      any batch size a pass in which nothing fails commits every complete line of the file
      and drops no event; each one has become a root unless an explicit branch had dropped
      it before. */
  lemma AnUndisturbedPassHandsOverEverything(feed: Feed, events: seq<Event>, bytes: Bytes, now: real, limit: nat)
    returns (more: seq<Event>)
    requires Follows(feed, START, events) && 0 < limit
    ensures var before := After(feed, START, events);
            && Enabled(feed, before, Arrive(bytes))
            && var sys := Step(feed, before, Arrive(bytes));
            && Follows(feed, sys, more) && (forall e :: e in more ==> Undisturbed(e))
            && var t := After(feed, sys, more);
            && t.box.file == before.box.file + bytes && t.box.committed <= |t.box.file|
            && Records(t.box.file, t.box.committed) == []
            && t.skipped == before.skipped
            && forall r, key :: r in Records(t.box.file, 0) && key in feed.events(r) ==>
                 t.accepted[key] > 0 || key in before.skipped
  {
    StartInv(feed);
    RunKeepsSysInv(feed, START, events);
    var before := After(feed, START, events);
    StepKeepsInv(feed, before, Arrive(bytes));
    var sys := Step(feed, before, Arrive(bytes));
    more := PassFrom(feed, sys, now, limit);
    NothingIsLeft(feed, After(feed, sys, more));
  }

  lemma NothingIsLeft(feed: Feed, sys: Sys)
    requires SysInv(feed, sys) && Records(sys.box.file, sys.box.committed) == []
    ensures forall r, key :: r in Records(sys.box.file, 0) && key in feed.events(r) ==>
              sys.accepted[key] > 0 || key in sys.skipped
  {
    forall r, key | r in Records(sys.box.file, 0) && key in feed.events(r)
      ensures sys.accepted[key] > 0 || key in sys.skipped
    {
      NothingBeyond(sys.box, r);
      PassedIsSettled(feed, sys, r, key);
      assert Settled(sys, key);
    }
  }

  /** With no complete line after the cursor, all of them are before it. */
  lemma NothingBeyond(b: Inbox, r: Record)
    requires b.committed <= |b.file| && Records(b.file, b.committed) == [] && r in Records(b.file, 0)
    ensures r.end <= b.committed
  {
    EndsAtABreak(b.file, 0, r);
    assert LineBreak(b.file, b.committed) == |b.file|;
  }

  lemma {:induction false} EndsAtABreak(file: Bytes, from: nat, r: Record)
    requires from <= |file| && r in Records(file, from)
    ensures from < r.end <= |file| && file[r.end - 1] == NEWLINE
    decreases |file| - from
  {
    var k := LineBreak(file, from);
    if r != Record(from, k + 1) {
      EndsAtABreak(file, k + 1, r);
    }
  }
}
