/** The delivery tables as `drain`, `acknowledge` and their helpers update them, and
    `_shrink_frame` as the loop it is; every drain is a run of the queue's steps. */
module RollupQueueClass {
  import opened Common
  import opened DiagnosticsQueue
  import Effects = RollupEffects

  /** `_shrink_frame`. */
  method ShrinkFrame(frame: Frame, noteBytes: nat) returns (out: Frame)
    ensures out == Shrink(frame, noteBytes)
  {
    if Bytes(frame) <= MAX_FRAME_BYTES {
      return frame;
    }
    var shrunk := frame;
    var i := 0;
    while i < |shrunk.parts|
      invariant 0 <= i <= |shrunk.parts| && shrunk.note == frame.note
      invariant CutFrom(frame, 0) == CutFrom(shrunk, i)
    {
      if shrunk.parts[i].items > 0 {
        shrunk := shrunk.(parts := shrunk.parts[i := EMPTY_LIST]);
        if Bytes(shrunk) <= MAX_FRAME_BYTES {
          break;
        }
      }
      i := i + 1;
    }
    return shrunk.(note := shrunk.note + noteBytes);
  }

  /** Steps the drain takes itself; it leaves the loop early only by a raising send. */
  predicate OwnSteps(events: seq<Event>, raised: bool) {
    && (forall e :: e in events ==> e.Take? || e.Judge? || e.Send? || e.Mark?)
    && (raised <==> Send(true) in events)
  }

  /** One more step of the drain's own. */
  lemma Own(w: World, events: seq<Event>, e: Event)
    requires ValidRun(w, events) && Enabled(After(w, events), e)
    requires OwnSteps(events, false) && (e.Take? || e.Judge? || e.Send? || e.Mark?)
    ensures ValidRun(w, events + [e]) && After(w, events + [e]) == Step(After(w, events), e)
    ensures OwnSteps(events + [e], e == Send(true)) && events + [e] != []
  {
    RunSnoc(w, events, e);
  }

  class RollupQueue {
    var runs: seq<Row>
    var attempts: map<string, nat>
    var sent: set<string>
    var rejected: set<string>
    ghost var pc: Pc
    ghost var deliveries: seq<Delivery>

    ghost function State(): World
      reads this
    {
      World(runs, attempts, sent, rejected, pc, deliveries)
    }

    constructor ()
      ensures State() == Fresh()
    {
      runs, attempts, sent, rejected := [], map[], {}, {};
      pc, deliveries := Idle, [];
    }

    method Acknowledge(id: string, stored: bool) returns (ok: bool)
      modifies this
      ensures ok == (id != "")
      ensures State() == if ok then Step(old(State()), Event.Acknowledge(Truncated(id), stored)) else old(State())
      ensures ok ==>
        var kept := if |id| > 64 then id[..64] else id;
        && State() == old(State()).(sent := sent, rejected := rejected, attempts := attempts)
        && sent == old(sent) + (if stored then {kept} else {}) && attempts == old(attempts) - (if stored then {kept} else {})
        && rejected == if stored then old(rejected) - {kept} else old(rejected) + {kept}
    {
      var id := Truncated(id);
      if id == "" {
        return false;
      }
      if stored {
        sent := sent + {id};
        rejected := rejected - {id};
        attempts := attempts - {id};
      } else {
        rejected := rejected + {id};
      }
      return true;
    }

    method SelectPending(limit: nat) returns (rows: seq<Row>)
      ensures rows == Limited(PendingRows(State(), runs), limit)
      ensures DistinctIds(runs) ==> Effects.Oldest(State(), rows, limit) && DistinctIds(rows)
    {
      if DistinctIds(runs) {
        Effects.PicksTheOldest(State(), limit);
        PendingRowsAre(State(), runs);
      }
      rows := [];
      var i := |runs|;
      while i > 0
        invariant 0 <= i <= |runs|
        invariant rows == PendingRows(State(), runs[i..])
      {
        i := i - 1;
        assert runs[i..][1..] == runs[i + 1..];
        if runs[i].id !in sent && runs[i].id !in rejected {
          rows := [runs[i]] + rows;
        }
      }
      if |rows| > limit {
        rows := rows[..limit];
      }
    }

    /** Handing over a trimmed frame, and marking it where the caller asks for that. */
    method SendRow(row: Row, ghost rest: seq<Row>, mark: bool, raises: bool, frame: Frame)
      returns (ghost events: seq<Event>)
      requires pc == Sending(row, rest, mark) && row.frame.Some?
      requires frame == Shrink(row.frame.value, row.noteBytes)
      modifies this
      ensures ValidRun(old(State()), events) && State() == After(old(State()), events)
      ensures runs == old(runs) && OwnSteps(events, raises)
      ensures pc == (if raises then Idle else Ready(rest, mark)) && |deliveries| == |old(deliveries)| + 1
    {
      ghost var start := State();
      events := [];
      Own(start, events, Send(raises));
      events := [Send(raises)];
      assert [] + events == events;
      deliveries := deliveries + [Delivery(row.id, Bytes(frame), row.id in sent)];
      if raises {
        pc := Idle;
      } else if mark {
        pc := Marking(row, rest);
        Own(start, events, Mark);
        events := events + [Mark];
        sent := sent + {row.id};
        pc := Ready(rest, mark);
      } else {
        pc := Ready(rest, mark);
      }
    }

    /** Counting the attempt, then retiring or trimming the row. */
    method JudgeRow(row: Row, ghost rest: seq<Row>, mark: bool)
      returns (frame: Option<Frame>, ghost events: seq<Event>)
      requires pc == Ready([row] + rest, mark)
      modifies this
      ensures ValidRun(old(State()), events) && State() == After(old(State()), events)
      ensures runs == old(runs) && deliveries == old(deliveries) && events != [] && OwnSteps(events, false)
      ensures frame.None? ==> pc == Ready(rest, mark)
      ensures frame.Some? ==>
        pc == Sending(row, rest, mark) && row.frame.Some? && frame.value == Shrink(row.frame.value, row.noteBytes)
    {
      ghost var start := State();
      assert ([row] + rest)[1..] == rest;
      Own(start, [], Take);
      events := [Take];
      assert [] + events == events;
      if row.frame == None {
        pc := Ready(rest, mark);
        return None, events;
      }
      var count := 0;
      if row.id != "" {
        count := (if row.id in attempts then attempts[row.id] else 0) + 1;
        attempts := attempts[row.id := count];
      }
      pc := Counted(row, count, rest, mark);
      var trimmed := ShrinkFrame(row.frame.value, row.noteBytes);
      Own(start, events, Judge);
      events := events + [Judge];
      if count > MAX_DELIVERY_ATTEMPTS || Bytes(trimmed) > MAX_FRAME_BYTES {
        rejected := rejected + {row.id};
        pc := Ready(rest, mark);
        return None, events;
      }
      pc := Sending(row, rest, mark);
      return Some(trimmed), events;
    }

    /** One row of the loop in `drain`. */
    method DrainRow(row: Row, ghost rest: seq<Row>, mark: bool, raises: bool)
      returns (raised: bool, delivered: bool, ghost events: seq<Event>)
      requires pc == Ready([row] + rest, mark)
      modifies this
      ensures ValidRun(old(State()), events) && State() == After(old(State()), events)
      ensures runs == old(runs) && events != [] && OwnSteps(events, raised)
      ensures |deliveries| == |old(deliveries)| + (if raised || delivered then 1 else 0)
      ensures raised ==> raises && !delivered && pc.Idle?
      ensures !raised ==> pc == Ready(rest, mark)
    {
      ghost var start := State();
      var frame;
      frame, events := JudgeRow(row, rest, mark);
      raised, delivered := false, false;
      if frame.Some? {
        ghost var more := SendRow(row, rest, mark, raises, frame.value);
        RunConcat(start, events, more);
        events := events + more;
        raised, delivered := raises, !raises;
      }
    }

    /** A drain whose `failing`-th row breaks the socket, if it gets that far.  Otherwise it
        picks the oldest pending rows, does with each what its attempts and its size ask for,
        and counts what went out. */
    method Drain(limit: nat, mark: bool, failing: Option<nat>)
      returns (count: nat, raised: bool, ghost events: seq<Event>, ghost rows: seq<Row>)
      requires pc.Idle?
      modifies this
      ensures DrainRun(old(State()), events, State(), limit, mark, raised)
      ensures |events| > 1 && pc.Idle? && runs == old(runs)
      ensures count <= limit
      ensures |deliveries| == |old(deliveries)| + count + (if raised then 1 else 0)
      ensures raised ==> failing.Some?
      ensures !raised && DistinctIds(runs) ==>
        Effects.Oldest(old(State()), rows, limit) && Effects.Drained(old(State()), State(), rows, mark)
    {
      ghost var start := State();
      count, raised := 0, false;
      var picked := SelectPending(limit);
      rows := picked;
      RunSnoc(start, [], BeginDrain(limit, mark));
      events := [] + [BeginDrain(limit, mark)];
      pc := Ready(picked, mark);
      var i := 0;
      assert picked[0..] == picked;
      while i < |picked|
        invariant 0 <= i <= |picked| <= limit && count <= i && !raised
        invariant |deliveries| == |old(deliveries)| + count
        invariant pc == Ready(picked[i..], mark) && runs == old(runs)
        invariant DrainRun(start, events, State(), limit, mark, false)
      {
        assert picked[i..] == [picked[i]] + picked[i + 1..];
        ghost var more: seq<Event>;
        ghost var before := State();
        var delivered;
        raised, delivered, more := DrainRow(picked[i], picked[i + 1..], mark, failing == Some(i));
        DrainGoesOn(start, events, before, limit, mark, more, raised);
        events := events + more;
        if raised {
          return;
        }
        if delivered {
          count := count + 1;
        }
        i := i + 1;
      }
      Own(State(), [], Take);
      assert [] + [Take] == [Take];
      DrainGoesOn(start, events, State(), limit, mark, [Take], false);
      events := events + [Take];
      pc := Idle;
      if DistinctIds(runs) {
        DrainRunDoes(start, events, State(), limit, mark, picked);
      }
    }
  }

  /** A run that begins a drain and goes on with the drain's own steps. */
  ghost predicate DrainRun(start: World, events: seq<Event>, now: World, limit: nat, mark: bool, raised: bool) {
    && ValidRun(start, events) && now == After(start, events)
    && events != [] && events[0] == BeginDrain(limit, mark) && OwnSteps(events[1..], raised)
  }

  /** A drain run to its end without a raising send does its picked rows. */
  lemma DrainRunDoes(start: World, events: seq<Event>, now: World, limit: nat, mark: bool, rows: seq<Row>)
    requires DrainRun(start, events, now, limit, mark, false) && now.pc.Idle? && DistinctIds(rows)
    requires Step(start, BeginDrain(limit, mark)).pc == Ready(rows, mark)
    ensures Effects.Drained(start, now, rows, mark)
  {
    var w := Step(start, BeginDrain(limit, mark));
    assert Effects.OwnRun(w, events[1..]);
    Effects.DrainDoes(w, rows, mark, events[1..]);
    SameTables(start, w, now, rows, mark);
  }

  lemma SameTables(start: World, w: World, now: World, rows: seq<Row>, mark: bool)
    requires w == start.(pc := w.pc) && Effects.Drained(w, now, rows, mark)
    ensures Effects.Drained(start, now, rows, mark)
  {
    SameOutgoing(start, w, rows);
    assert forall row :: Effects.GoesOut(w, row) == Effects.GoesOut(start, row);
    assert forall id :: Attempts(w, id) == Attempts(start, id);
  }

  lemma {:induction false} SameOutgoing(start: World, w: World, rows: seq<Row>)
    requires w == start.(pc := w.pc)
    ensures Effects.Outgoing(w, rows) == Effects.Outgoing(start, rows)
  {
    if rows != [] {
      SameOutgoing(start, w, rows[1..]);
    }
  }

  lemma DrainGoesOn(start: World, events: seq<Event>, now: World, limit: nat, mark: bool, more: seq<Event>, raised: bool)
    requires DrainRun(start, events, now, limit, mark, false)
    requires ValidRun(now, more) && OwnSteps(more, raised)
    ensures DrainRun(start, events + more, After(now, more), limit, mark, raised)
  {
    RunConcat(start, events, more);
    assert (events + more)[1..] == events[1..] + more;
  }
}
