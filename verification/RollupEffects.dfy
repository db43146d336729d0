/** What one drain does with the rows it picked, whatever it went through: which rows go out,
    which are retired, what is counted; and which rows it picks. */
module RollupEffects {
  import opened Common
  import opened DiagnosticsQueue

  // ------------------------------------------------------------------ one drain

  predicate Fits(row: Row) {
    row.frame.Some? && Bytes(Shrink(row.frame.value, row.noteBytes)) <= 120_000
  }

  /** The row is sent: its trimmed frame fits, and this attempt is at most the fifth. */
  predicate GoesOut(w: World, row: Row) {
    Fits(row) && (row.id == "" || Attempts(w, row.id) < 5)
  }

  /** What is handed to the transport for these rows, in order. */
  function Outgoing(w: World, rows: seq<Row>): seq<Delivery> {
    if rows == [] then []
    else
      (if GoesOut(w, rows[0])
       then [Delivery(rows[0].id, Bytes(Shrink(rows[0].frame.value, rows[0].noteBytes)), rows[0].id in w.sent)] else [])
      + Outgoing(w, rows[1..])
  }

  ghost predicate OneSent(w: World, rows: seq<Row>, id: string) {
    exists row :: row in rows && GoesOut(w, row) && row.id == id
  }

  /** Given up for good: a sixth attempt, or a frame that cannot be made to fit. */
  ghost predicate OneRetired(w: World, rows: seq<Row>, id: string) {
    exists row :: row in rows && row.frame.Some? && !GoesOut(w, row) && row.id == id
  }

  ghost predicate OneCounted(rows: seq<Row>, id: string) {
    id != "" && exists row :: row in rows && row.frame.Some? && row.id == id
  }

  /** After a drain of these rows in which no send raised. */
  ghost predicate Drained(w: World, t: World, rows: seq<Row>, mark: bool) {
    && t.runs == w.runs && t.pc.Idle?
    && t.deliveries == w.deliveries + Outgoing(w, rows)
    && (forall id :: id in t.sent <==> id in w.sent || (mark && OneSent(w, rows, id)))
    && (forall id :: id in t.rejected <==> id in w.rejected || OneRetired(w, rows, id))
    && (forall id :: Attempts(t, id) == Attempts(w, id) + (if OneCounted(rows, id) then 1 else 0))
  }

  /** The same of its first row, the others being still ahead. */
  ghost predicate RowDone(w: World, t: World, row: Row, rest: seq<Row>, mark: bool) {
    && t.runs == w.runs && t.pc == Ready(rest, mark)
    && t.deliveries == w.deliveries + Outgoing(w, [row])
    && t.sent == w.sent + (if mark && GoesOut(w, row) then {row.id} else {})
    && t.rejected == w.rejected + (if row.frame.Some? && !GoesOut(w, row) then {row.id} else {})
    && (forall id :: Attempts(t, id) == Attempts(w, id) + (if id == row.id && id != "" && row.frame.Some? then 1 else 0))
  }

  lemma RowThenRest(w: World, u: World, t: World, row: Row, rest: seq<Row>, mark: bool)
    requires DistinctIds([row] + rest) && RowDone(w, u, row, rest, mark) && Drained(u, t, rest, mark)
    ensures Drained(w, t, [row] + rest, mark)
  {
    RestUnaffected(w, u, row, rest, mark);
    OutgoingSplits(w, row, rest);
    TablesSplit(w, u, t, row, rest, mark);
    CountsSplit(w, u, t, row, rest, mark);
  }

  lemma RestUnaffected(w: World, u: World, row: Row, rest: seq<Row>, mark: bool)
    requires DistinctIds([row] + rest) && RowDone(w, u, row, rest, mark)
    ensures forall r :: r in rest ==> r.id != row.id && GoesOut(u, r) == GoesOut(w, r)
    ensures Outgoing(u, rest) == Outgoing(w, rest)
  {
    RestAfterHand(row, rest);
    OthersUnaffected(w, u, row, rest);
  }

  lemma OutgoingSplits(w: World, row: Row, rest: seq<Row>)
    ensures Outgoing(w, [row] + rest) == Outgoing(w, [row]) + Outgoing(w, rest)
  {
    assert ([row] + rest)[1..] == rest && [row][1..] == [];
  }

  lemma TablesSplit(w: World, u: World, t: World, row: Row, rest: seq<Row>, mark: bool)
    requires RowDone(w, u, row, rest, mark) && Drained(u, t, rest, mark)
    requires forall r :: r in rest ==> GoesOut(u, r) == GoesOut(w, r)
    ensures forall id :: id in t.sent <==> id in w.sent || (mark && OneSent(w, [row] + rest, id))
    ensures forall id :: id in t.rejected <==> id in w.rejected || OneRetired(w, [row] + rest, id)
  {
    forall id {
      SentSplits(w, u, row, rest, id);
    }
  }

  lemma CountsSplit(w: World, u: World, t: World, row: Row, rest: seq<Row>, mark: bool)
    requires RowDone(w, u, row, rest, mark) && Drained(u, t, rest, mark) && forall r :: r in rest ==> r.id != row.id
    ensures forall id :: Attempts(t, id) == Attempts(w, id) + (if OneCounted([row] + rest, id) then 1 else 0)
  {
    forall id ensures Attempts(t, id) == Attempts(w, id) + (if OneCounted([row] + rest, id) then 1 else 0) {
      CountedSplits(row, rest, id);
    }
  }

  lemma SentSplits(w: World, u: World, row: Row, rest: seq<Row>, id: string)
    requires forall r :: r in rest ==> GoesOut(u, r) == GoesOut(w, r)
    ensures OneSent(w, [row] + rest, id) <==> (GoesOut(w, row) && row.id == id) || OneSent(u, rest, id)
    ensures OneRetired(w, [row] + rest, id)
            <==> (row.frame.Some? && !GoesOut(w, row) && row.id == id) || OneRetired(u, rest, id)
  {
    assert forall r :: r in [row] + rest <==> r == row || r in rest;
  }

  lemma CountedSplits(row: Row, rest: seq<Row>, id: string)
    requires forall r :: r in rest ==> r.id != row.id
    ensures OneCounted([row] + rest, id) <==> (id != "" && row.frame.Some? && row.id == id) || OneCounted(rest, id)
    ensures row.id == id ==> !OneCounted(rest, id)
  {
    assert forall r :: r in [row] + rest <==> r == row || r in rest;
  }

  /** A row's attempt touches no other row. */
  lemma {:induction false} OthersUnaffected(w: World, u: World, row: Row, rest: seq<Row>)
    requires forall r :: r in rest ==> r.id != row.id
    requires forall id :: id != row.id ==> Attempts(u, id) == Attempts(w, id)
    requires forall id :: id != row.id ==> (id in u.sent <==> id in w.sent)
    ensures forall r :: r in rest ==> GoesOut(u, r) == GoesOut(w, r)
    ensures Outgoing(u, rest) == Outgoing(w, rest)
    decreases |rest|
  {
    if rest != [] {
      assert rest[0] in rest && forall r :: r in rest[1..] ==> r in rest;
      OthersUnaffected(w, u, row, rest[1..]);
    }
  }

  predicate Own(e: Event) {
    e == Take || e == Judge || e == Send(false) || e == Mark
  }

  ghost predicate OwnRun(w: World, events: seq<Event>) {
    ValidRun(w, events) && forall e :: e in events ==> Own(e)
  }

  lemma OwnTail(w: World, events: seq<Event>)
    requires OwnRun(w, events) && events != []
    ensures Enabled(w, events[0]) && Own(events[0]) && OwnRun(Step(w, events[0]), events[1..])
    ensures After(w, events) == After(Step(w, events[0]), events[1..])
  {
    assert forall e :: e in events[1..] ==> e in events;
  }

  /** A drain's own steps take the row ahead through, to the next one. */
  lemma FirstRow(w: World, row: Row, rest: seq<Row>, mark: bool, events: seq<Event>) returns (n: nat)
    requires w.pc == Ready([row] + rest, mark) && OwnRun(w, events) && After(w, events).pc.Idle?
    ensures 0 < n <= |events| && OwnRun(w, events[..n]) && OwnRun(After(w, events[..n]), events[n..])
    ensures After(After(w, events[..n]), events[n..]) == After(w, events)
    ensures RowDone(w, After(w, events[..n]), row, rest, mark)
  {
    assert ([row] + rest)[1..] == rest && [row][1..] == [];
    OwnTail(w, events);
    var u := Step(w, Take);
    if row.frame.None? {
      n := 1;
      FirstPart(w, events, 1);
      assert events[..1] == [Take] && [Take][1..] == [];
    } else {
      n := CountedRow(w, u, row, rest, mark, events[1..]);
      n := n + 1;
      FirstPart(w, events, n);
      assert events[..n][1..] == events[1..][..n - 1];
    }
  }

  lemma {:induction false} FirstPart(w: World, events: seq<Event>, n: nat)
    requires OwnRun(w, events) && n <= |events|
    ensures OwnRun(w, events[..n]) && OwnRun(After(w, events[..n]), events[n..])
    ensures After(After(w, events[..n]), events[n..]) == After(w, events)
    decreases n
  {
    if n > 0 {
      OwnTail(w, events);
      FirstPart(Step(w, events[0]), events[1..], n - 1);
      assert events[..n][1..] == events[1..][..n - 1] && events[n..] == events[1..][n - 1..];
      assert forall e :: e in events[..n] ==> e in events;
    } else {
      assert events[0..] == events;
    }
  }

  /** Counting a row. */
  lemma Counts(w: World, row: Row, rest: seq<Row>, mark: bool)
    requires w.pc == Ready([row] + rest, mark) && row.frame.Some?
    ensures var u := Step(w, Take);
            && u == w.(attempts := u.attempts, pc := u.pc)
            && u.pc == Counted(row, if row.id == "" then 0 else Attempts(w, row.id) + 1, rest, mark)
            && forall id :: Attempts(u, id) == Attempts(w, id) + (if id == row.id && id != "" then 1 else 0)
  {
    assert ([row] + rest)[1..] == rest;
  }

  /** Judging it. */
  lemma Judges(w: World, u: World, row: Row, rest: seq<Row>, mark: bool)
    requires row.frame.Some? && u.pc == Counted(row, if row.id == "" then 0 else Attempts(w, row.id) + 1, rest, mark)
    ensures Step(u, Judge) == if GoesOut(w, row) then u.(pc := Sending(row, rest, mark))
                              else u.(rejected := u.rejected + {row.id}, pc := Ready(rest, mark))
  {
  }

  /** The events from a counted row to the next, and where they lead. */
  lemma JudgedRow(w: World, u: World, row: Row, rest: seq<Row>, mark: bool, events: seq<Event>)
    returns (n: nat, t: World)
    requires row.frame.Some? && u.pc == Counted(row, if row.id == "" then 0 else Attempts(w, row.id) + 1, rest, mark)
    requires OwnRun(u, events) && After(u, events).pc.Idle?
    ensures 0 < n <= |events| && ValidRun(u, events[..n]) && t == After(u, events[..n])
    ensures if !GoesOut(w, row) then t == u.(rejected := u.rejected + {row.id}, pc := Ready(rest, mark))
            else t == u.(
              deliveries := u.deliveries + [Delivery(row.id, Bytes(Shrink(row.frame.value, row.noteBytes)), row.id in u.sent)],
              sent := u.sent + (if mark then {row.id} else {}), pc := Ready(rest, mark))
  {
    OwnTail(u, events);
    Judges(w, u, row, rest, mark);
    var v := Step(u, Judge);
    if GoesOut(w, row) {
      n, t := SentRow(u, v, row, rest, mark, events);
    } else {
      n, t := 1, v;
      assert events[..1] == [Judge] && [Judge][1..] == [];
    }
  }

  lemma SentRow(u: World, v: World, row: Row, rest: seq<Row>, mark: bool, events: seq<Event>)
    returns (n: nat, t: World)
    requires row.frame.Some? && v == u.(pc := Sending(row, rest, mark)) && OwnRun(u, events) && After(u, events).pc.Idle?
    requires events != [] && Enabled(u, events[0]) && v == Step(u, events[0])
    ensures 0 < n <= |events| && ValidRun(u, events[..n]) && t == After(u, events[..n])
    ensures t == u.(
              deliveries := u.deliveries + [Delivery(row.id, Bytes(Shrink(row.frame.value, row.noteBytes)), row.id in u.sent)],
              sent := u.sent + (if mark then {row.id} else {}), pc := Ready(rest, mark))
  {
    OwnTail(u, events);
    OwnTail(v, events[1..]);
    var x := Step(v, Send(false));
    if mark {
      OwnTail(x, events[2..]);
      Unfold3(u, events, v, x);
      n, t := 3, Step(x, Mark);
    } else {
      Unfold2(u, events, v);
      n, t := 2, x;
    }
  }

  /** A counted row taken through to the next. */
  lemma CountedRow(w: World, u: World, row: Row, rest: seq<Row>, mark: bool, events: seq<Event>) returns (n: nat)
    requires w.pc == Ready([row] + rest, mark) && u == Step(w, Take) && row.frame.Some?
    requires OwnRun(u, events) && After(u, events).pc.Idle?
    ensures 0 < n <= |events| && ValidRun(u, events[..n]) && RowDone(w, After(u, events[..n]), row, rest, mark)
  {
    Counts(w, row, rest, mark);
    var t;
    n, t := JudgedRow(w, u, row, rest, mark, events);
    assert [row][1..] == [];
    assert Outgoing(w, [row]) == if GoesOut(w, row)
      then [Delivery(row.id, Bytes(Shrink(row.frame.value, row.noteBytes)), row.id in w.sent)] else [];
  }

  lemma Unfold2(u: World, events: seq<Event>, v: World)
    requires |events| >= 2 && Enabled(u, events[0]) && v == Step(u, events[0]) && Enabled(v, events[1])
    ensures ValidRun(u, events[..2]) && After(u, events[..2]) == Step(v, events[1])
  {
    RunSnoc(u, [], events[0]);
    assert [] + [events[0]] == events[..1];
    RunSnoc(u, events[..1], events[1]);
    assert events[..1] + [events[1]] == events[..2];
  }

  lemma Unfold3(u: World, events: seq<Event>, v: World, x: World)
    requires |events| >= 3 && Enabled(u, events[0]) && v == Step(u, events[0]) && Enabled(v, events[1])
    requires x == Step(v, events[1]) && Enabled(x, events[2])
    ensures ValidRun(u, events[..3]) && After(u, events[..3]) == Step(x, events[2])
  {
    Unfold2(u, events, v);
    RunSnoc(u, events[..2], events[2]);
    assert events[..2] + [events[2]] == events[..3];
  }

  /** Whatever own steps a drain takes to its end: every picked row was sent if its trimmed
      frame fits and the attempt is at most the fifth, and retired if it could be counted but
      not sent; exactly the countable rows are counted. */
  lemma {:induction false} DrainDoes(w: World, rows: seq<Row>, mark: bool, events: seq<Event>)
    requires w.pc == Ready(rows, mark) && DistinctIds(rows) && OwnRun(w, events) && After(w, events).pc.Idle?
    ensures Drained(w, After(w, events), rows, mark)
    decreases |rows|
  {
    OwnTail(w, events);
    if rows == [] {
      var t := Step(w, Take);
      if events[1..] != [] {
        OwnTail(t, events[1..]);
      }
      assert After(w, events) == t;
    } else {
      assert rows == [rows[0]] + rows[1..];
      var n := FirstRow(w, rows[0], rows[1..], mark, events);
      RestAfterHand(rows[0], rows[1..]);
      var u := After(w, events[..n]);
      DrainDoes(u, rows[1..], mark, events[n..]);
      RowThenRest(w, u, After(w, events), rows[0], rows[1..], mark);
    }
  }

  /** A crash ends the drain and leaves the tables, counted attempts included. */
  lemma CrashKeepsTheTables(w: World)
    ensures Step(w, Crash).pc.Idle? && Step(w, Crash) == w.(pc := Step(w, Crash).pc)
  {
  }

  // ----------------------------------------------------------------- the picked rows

  /** The oldest pending rows, up to the limit, in the order they were recorded. */
  ghost predicate Oldest(w: World, rows: seq<Row>, limit: nat) {
    && |rows| <= limit
    && (forall row :: row in rows ==> row in w.runs && Pending(w, row))
    && (|rows| < limit ==> forall row :: row in w.runs && Pending(w, row) ==> row in rows)
    && (forall i, j :: 0 <= i < j < |w.runs| && Pending(w, w.runs[i]) && w.runs[j] in rows ==> w.runs[i] in rows)
  }

  /** The pending rows up to one of the recorded ones. */
  lemma {:induction false} PendingUpTo(w: World, rows: seq<Row>, k: nat)
    requires k <= |rows|
    ensures PendingRows(w, rows) == PendingRows(w, rows[..k]) + PendingRows(w, rows[k..])
    decreases |rows|
  {
    if rows == [] {
    } else if k == 0 {
      assert rows[..0] == [] && rows[0..] == rows;
    } else {
      PendingUpTo(w, rows[1..], k - 1);
      assert rows[..k][1..] == rows[1..][..k - 1] && rows[k..] == rows[1..][k - 1..];
    }
  }

  lemma PicksTheOldest(w: World, limit: nat)
    requires DistinctIds(w.runs)
    ensures Oldest(w, Limited(PendingRows(w, w.runs), limit), limit)
  {
    var all := PendingRows(w, w.runs);
    var rows := Limited(all, limit);
    PendingRowsAre(w, w.runs);
    assert forall row :: row in rows ==> row in all;
    forall i, j | 0 <= i < j < |w.runs| && Pending(w, w.runs[i]) && w.runs[j] in rows ensures w.runs[i] in rows {
      OlderIsPicked(w, limit, i, j);
    }
  }

  lemma OlderIsPicked(w: World, limit: nat, i: nat, j: nat)
    requires DistinctIds(w.runs) && i < j < |w.runs| && Pending(w, w.runs[i])
    requires w.runs[j] in Limited(PendingRows(w, w.runs), limit)
    ensures w.runs[i] in Limited(PendingRows(w, w.runs), limit)
  {
    var all := PendingRows(w, w.runs);
    var front, back := PendingRows(w, w.runs[..j]), PendingRows(w, w.runs[j..]);
    PendingUpTo(w, w.runs, j);
    assert DistinctIds(w.runs[..j]);
    PendingRowsAre(w, w.runs[..j]);
    assert w.runs[i] in w.runs[..j] by {
      assert w.runs[..j][i] == w.runs[i];
    }
    assert w.runs[j] !in front by {
      NotAmongTheOlder(w.runs, j);
    }
    var a :| 0 <= a < |front| && front[a] == w.runs[i];
    var b :| 0 <= b < |Limited(all, limit)| && Limited(all, limit)[b] == w.runs[j];
    assert all[b] == w.runs[j];
    assert b >= |front|;
    assert Limited(all, limit)[a] == front[a];
  }

  lemma NotAmongTheOlder(rows: seq<Row>, j: nat)
    requires DistinctIds(rows) && j < |rows|
    ensures rows[j] !in rows[..j]
  {
    forall i | 0 <= i < j ensures rows[..j][i] != rows[j] {
      assert rows[i].id != rows[j].id;
    }
  }
}
