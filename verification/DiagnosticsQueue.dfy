/** The bounded delivery of diagnostic rollups (`core/glass_diag_push.py`): counting
    before sending, trimming, dead letters, and acknowledgements that may arrive at
    any moment, across crashes. */
module DiagnosticsQueue {
  import opened Common

  const MAX_FRAME_BYTES := 120_000
  const MAX_DELIVERY_ATTEMPTS := 5

  // --------------------------------------------------------------------- frames

  /** A list in a frame: how many entries, and how many bytes they serialize to. */
  datatype Part = Part(items: nat, bytes: nat)

  const EMPTY_LIST := Part(0, 2)

  /** `events`, `spans`, `bottlenecks` in the order they are dropped; `other` is the
      size of everything else, `note` of the truncation record once it is added. */
  datatype Frame = Frame(parts: seq<Part>, other: nat, note: nat)

  function PartBytes(parts: seq<Part>): nat {
    if parts == [] then 0 else parts[0].bytes + PartBytes(parts[1..])
  }

  function Bytes(f: Frame): nat {
    f.other + f.note + PartBytes(f.parts)
  }

  /** The cutting loop of `_shrink_frame`, from one list on. */
  function CutFrom(f: Frame, i: nat): Frame
    requires i <= |f.parts|
    decreases |f.parts| - i
  {
    if i == |f.parts| then f
    else if f.parts[i].items == 0 then CutFrom(f, i + 1)
    else
      var cut := f.(parts := f.parts[i := EMPTY_LIST]);
      if Bytes(cut) <= MAX_FRAME_BYTES then cut else CutFrom(cut, i + 1)
  }

  /** `_shrink_frame`: a frame that fits is left alone; `noteBytes` is what recording
      the truncation adds. */
  function Shrink(f: Frame, noteBytes: nat): Frame {
    if Bytes(f) <= MAX_FRAME_BYTES then f else CutFrom(f, 0).(note := f.note + noteBytes)
  }

  /** The frame with every non-empty list before `k` dropped. */
  function CutTo(f: Frame, k: nat): Frame
    requires k <= |f.parts|
  {
    if k == 0 then f
    else
      var g := CutTo(f, k - 1);
      if k <= |g.parts| && g.parts[k - 1].items > 0 then g.(parts := g.parts[k - 1 := EMPTY_LIST]) else g
  }

  lemma {:induction false} CutToShape(f: Frame, k: nat)
    requires k <= |f.parts|
    ensures |CutTo(f, k).parts| == |f.parts| && CutTo(f, k).other == f.other && CutTo(f, k).note == f.note
    ensures forall j :: k <= j < |f.parts| ==> CutTo(f, k).parts[j] == f.parts[j]
    ensures forall j :: 0 <= j < k ==>
      CutTo(f, k).parts[j] == if f.parts[j].items > 0 then EMPTY_LIST else f.parts[j]
  {
    if k > 0 {
      CutToShape(f, k - 1);
    }
  }

  lemma {:induction false} CutFromIsCutTo(f: Frame, i: nat) returns (k: nat)
    requires i <= |f.parts| && Bytes(CutTo(f, i)) > MAX_FRAME_BYTES && |CutTo(f, i).parts| == |f.parts|
    ensures i <= k <= |f.parts| && CutFrom(CutTo(f, i), i) == CutTo(f, k)
    ensures Bytes(CutTo(f, k)) <= MAX_FRAME_BYTES || k == |f.parts|
    ensures forall j :: i <= j < k ==> Bytes(CutTo(f, j)) > MAX_FRAME_BYTES
    decreases |f.parts| - i
  {
    CutToShape(f, i);
    if i == |f.parts| {
      k := i;
    } else {
      CutToShape(f, i + 1);
      if Bytes(CutTo(f, i + 1)) <= MAX_FRAME_BYTES {
        k := i + 1;
      } else {
        k := CutFromIsCutTo(f, i + 1);
      }
    }
  }

  /** Trimming drops lists heaviest first and no further than it has to: every
      shorter cut is still too big. */
  lemma ShrinkCutsOnlyWhatItMust(f: Frame, noteBytes: nat) returns (k: nat)
    ensures Bytes(f) <= MAX_FRAME_BYTES ==> Shrink(f, noteBytes) == f
    ensures Bytes(f) > MAX_FRAME_BYTES ==>
      && k <= |f.parts| && Shrink(f, noteBytes) == CutTo(f, k).(note := f.note + noteBytes)
      && (forall j :: 0 <= j < k ==> Bytes(CutTo(f, j)) > MAX_FRAME_BYTES)
      && (Bytes(CutTo(f, k)) <= MAX_FRAME_BYTES || k == |f.parts|)
  {
    if Bytes(f) > MAX_FRAME_BYTES {
      k := CutFromIsCutTo(f, 0);
    } else {
      k := 0;
    }
  }

  // ---------------------------------------------------------------------- queue

  /** A row of `runs`; a bad row yields no frame. */
  datatype Row = Row(id: string, frame: Option<Frame>, noteBytes: nat)

  datatype Pc =
    | Idle
    | Ready(rest: seq<Row>, mark: bool)
    | Counted(row: Row, count: nat, rest: seq<Row>, mark: bool)
    | Sending(row: Row, rest: seq<Row>, mark: bool)
    | Marking(row: Row, rest: seq<Row>)

  const MAX_ACKNOWLEDGED_CHARS := 64

  /** `acknowledge` keeps this much of the id it is told. */
  function Truncated(id: string): string {
    if |id| > MAX_ACKNOWLEDGED_CHARS then id[..MAX_ACKNOWLEDGED_CHARS] else id
  }

  /** One call of `send_fn`; `acknowledged` when Glass had already stored the row. */
  datatype Delivery = Delivery(id: string, bytes: nat, acknowledged: bool)

  datatype World = World(
    runs: seq<Row>,
    attempts: map<string, nat>,
    sent: set<string>,
    rejected: set<string>,
    pc: Pc,
    deliveries: seq<Delivery>)

  datatype Event =
    | Recorded(row: Row)
    | BeginDrain(limit: nat, mark: bool)
    | Take
    | Judge
    | Send(raises: bool)
    | Mark
    | Acknowledge(id: string, stored: bool)
    | Crash

  function Attempts(w: World, id: string): nat {
    if id in w.attempts then w.attempts[id] else 0
  }

  predicate Pending(w: World, row: Row) {
    row.id !in w.sent && row.id !in w.rejected
  }

  /** The query of `drain`: pending rows, oldest first. */
  function PendingRows(w: World, rows: seq<Row>): seq<Row> {
    if rows == [] then []
    else (if Pending(w, rows[0]) then [rows[0]] else []) + PendingRows(w, rows[1..])
  }

  function Limited(rows: seq<Row>, limit: nat): seq<Row> {
    if |rows| <= limit then rows else rows[..limit]
  }

  predicate Enabled(w: World, e: Event) {
    match e
    case Recorded(row) => forall r :: r in w.runs ==> r.id != row.id
    case BeginDrain(_, _) => w.pc.Idle?
    case Take => w.pc.Ready?
    case Judge => w.pc.Counted?
    case Send(_) => w.pc.Sending?
    case Mark => w.pc.Marking?
    case Acknowledge(id, _) => id != ""
    case Crash => true
  }

  function AfterTake(w: World): World
    requires Enabled(w, Take)
  {
    if w.pc.rest == [] then w.(pc := Idle)
    else
      var row, rest := w.pc.rest[0], w.pc.rest[1..];
      if row.frame.None? then w.(pc := Ready(rest, w.pc.mark))
      else if row.id == "" then w.(pc := Counted(row, 0, rest, w.pc.mark))
      else
        var count := Attempts(w, row.id) + 1;
        w.(attempts := w.attempts[row.id := count], pc := Counted(row, count, rest, w.pc.mark))
  }

  function AfterJudge(w: World): World
    requires Enabled(w, Judge)
  {
    var row := w.pc.row;
    if w.pc.count > MAX_DELIVERY_ATTEMPTS || row.frame.None? || Bytes(Shrink(row.frame.value, row.noteBytes)) > MAX_FRAME_BYTES
    then w.(rejected := w.rejected + {row.id}, pc := Ready(w.pc.rest, w.pc.mark))
    else w.(pc := Sending(row, w.pc.rest, w.pc.mark))
  }

  function AfterSend(w: World, raises: bool): World
    requires Enabled(w, Send(raises))
  {
    var row := w.pc.row;
    var bytes := if row.frame.Some? then Bytes(Shrink(row.frame.value, row.noteBytes)) else 0;
    w.(
    deliveries := w.deliveries + [Delivery(row.id, bytes, row.id in w.sent)],
    pc := if raises then Idle else if w.pc.mark then Marking(row, w.pc.rest) else Ready(w.pc.rest, false))
  }

  function AfterAcknowledge(w: World, id: string, stored: bool): World {
    if stored then w.(sent := w.sent + {id}, rejected := w.rejected - {id}, attempts := w.attempts - {id})
    else w.(rejected := w.rejected + {id})
  }

  function Step(w: World, e: Event): World
    requires Enabled(w, e)
  {
    match e
    case Recorded(row) => w.(runs := w.runs + [row])
    case BeginDrain(limit, mark) => w.(pc := Ready(Limited(PendingRows(w, w.runs), limit), mark))
    case Take => AfterTake(w)
    case Judge => AfterJudge(w)
    case Send(raises) => AfterSend(w, raises)
    case Mark => w.(sent := w.sent + {w.pc.row.id}, pc := Ready(w.pc.rest, true))
    case Acknowledge(id, stored) => AfterAcknowledge(w, id, stored)
    case Crash => w.(pc := Idle)
  }

  function Fresh(): World {
    World([], map[], {}, {}, Idle, [])
  }

  // ------------------------------------------------------------------ invariant

  function Sends(deliveries: seq<Delivery>, id: string, acknowledged: bool): nat {
    if deliveries == [] then 0
    else
      var last := deliveries[|deliveries| - 1];
      Sends(deliveries[..|deliveries| - 1], id, acknowledged)
      + (if last.id == id && last.acknowledged == acknowledged then 1 else 0)
  }

  /** Rows still ahead of the drain. */
  function Waiting(pc: Pc): seq<Row> {
    match pc
    case Idle => []
    case Ready(rest, _) => rest
    case Counted(row, _, rest, _) => [row] + rest
    case Sending(row, rest, _) => [row] + rest
    case Marking(_, rest) => rest
  }

  /** The row whose counted attempt has not been sent yet. */
  predicate Holding(pc: Pc, id: string) {
    (pc.Counted? || pc.Sending?) && pc.row.id == id
  }

  ghost predicate DistinctIds(rows: seq<Row>) {
    forall i, j :: 0 <= i < j < |rows| ==> rows[i].id != rows[j].id
  }

  ghost predicate IdInv(w: World, id: string) {
    && Sends(w.deliveries, id, false) <= MAX_DELIVERY_ATTEMPTS
    && (id !in w.sent ==>
          && Sends(w.deliveries, id, false) + (if Holding(w.pc, id) then 1 else 0) <= Attempts(w, id)
          && Sends(w.deliveries, id, true) == 0
          && (w.pc.Counted? && w.pc.row.id == id ==> w.pc.count == Attempts(w, id))
          && (w.pc.Sending? && w.pc.row.id == id ==> Attempts(w, id) <= MAX_DELIVERY_ATTEMPTS))
    && Sends(w.deliveries, id, true) <= 1
    && (Sends(w.deliveries, id, true) == 1 ==> forall row :: row in Waiting(w.pc) ==> row.id != id)
  }

  ghost predicate WorldInv(w: World) {
    && DistinctIds(w.runs) && DistinctIds(Waiting(w.pc))
    && (forall id :: id != "" ==> IdInv(w, id))
    && (forall d :: d in w.deliveries ==> d.bytes <= MAX_FRAME_BYTES)
    && (w.pc.Sending? ==> w.pc.row.frame.Some? && Bytes(Shrink(w.pc.row.frame.value, w.pc.row.noteBytes)) <= MAX_FRAME_BYTES)
    && (w.pc.Marking? ==> forall row :: row in w.pc.rest ==> row.id != w.pc.row.id)
  }

  lemma {:induction false} PendingRowsAre(w: World, rows: seq<Row>)
    requires DistinctIds(rows)
    ensures DistinctIds(PendingRows(w, rows))
    ensures forall row :: row in PendingRows(w, rows) <==> row in rows && Pending(w, row)
  {
    if rows != [] {
      assert forall i :: 0 <= i < |rows[1..]| ==> rows[1..][i] == rows[i + 1];
      PendingRowsAre(w, rows[1..]);
      assert forall row :: row in rows <==> row == rows[0] || row in rows[1..];
      forall row | row in rows[1..] ensures row.id != rows[0].id {
        var i :| 0 <= i < |rows[1..]| && rows[1..][i] == row;
        assert rows[i + 1] == row;
      }
      var rest := PendingRows(w, rows[1..]);
      assert forall j :: 0 <= j < |rest| ==> rest[j] in rest;
    }
  }

  lemma BeginKeepsInv(w: World, limit: nat, mark: bool)
    requires WorldInv(w) && Enabled(w, BeginDrain(limit, mark))
    ensures WorldInv(Step(w, BeginDrain(limit, mark)))
  {
    var t := Step(w, BeginDrain(limit, mark));
    PendingRowsAre(w, w.runs);
    forall row | row in Waiting(t.pc) ensures row.id !in w.sent {
      assert row in PendingRows(w, w.runs);
    }
    forall id | id != "" ensures IdInv(t, id) {
      assert IdInv(w, id);
    }
  }

  /** Moving on with fewer rows ahead keeps everything about an id that is not in hand. */
  lemma FewerWaiting(w: World, t: World, id: string)
    requires IdInv(w, id) && !Holding(t.pc, id)
    requires t.deliveries == w.deliveries && t.sent == w.sent && Attempts(t, id) >= Attempts(w, id)
    requires forall row :: row in Waiting(t.pc) ==> row in Waiting(w.pc)
    ensures IdInv(t, id)
  {
  }

  lemma TailDistinct(rows: seq<Row>)
    requires DistinctIds(rows) && rows != []
    ensures DistinctIds(rows[1..])
  {
    forall i, j | 0 <= i < j < |rows[1..]| ensures rows[1..][i].id != rows[1..][j].id {
      assert rows[1..][i] == rows[i + 1] && rows[1..][j] == rows[j + 1];
    }
  }

  lemma TakeKeepsId(w: World, id: string)
    requires w.pc.Ready? && w.pc.rest != [] && IdInv(w, id) && id != ""
    ensures IdInv(Step(w, Take), id)
  {
    var t := Step(w, Take);
    assert [w.pc.rest[0]] + w.pc.rest[1..] == w.pc.rest;
    if Holding(t.pc, id) {
      assert w.pc.rest[0] in Waiting(w.pc);
    } else {
      FewerWaiting(w, t, id);
    }
  }

  lemma TakeKeepsInv(w: World)
    requires WorldInv(w) && Enabled(w, Take)
    ensures WorldInv(Step(w, Take))
  {
    var t := Step(w, Take);
    if w.pc.rest == [] {
      forall id | id != "" ensures IdInv(t, id) {
        assert IdInv(w, id);
      }
    } else {
      TailDistinct(w.pc.rest);
      assert [w.pc.rest[0]] + w.pc.rest[1..] == w.pc.rest;
      forall id | id != "" ensures IdInv(t, id) {
        assert IdInv(w, id);
        TakeKeepsId(w, id);
      }
    }
  }

  lemma JudgeKeepsInv(w: World)
    requires WorldInv(w) && Enabled(w, Judge)
    ensures WorldInv(Step(w, Judge))
  {
    var t := Step(w, Judge);
    assert ([w.pc.row] + w.pc.rest)[1..] == w.pc.rest;
    forall i, j | 0 <= i < j < |w.pc.rest| ensures w.pc.rest[i].id != w.pc.rest[j].id {
      assert Waiting(w.pc)[i + 1] == w.pc.rest[i] && Waiting(w.pc)[j + 1] == w.pc.rest[j];
    }
    forall id | id != "" ensures IdInv(t, id) {
      assert IdInv(w, id);
    }
  }

  lemma SendsAppend(deliveries: seq<Delivery>, d: Delivery, id: string, acknowledged: bool)
    ensures Sends(deliveries + [d], id, acknowledged)
         == Sends(deliveries, id, acknowledged) + (if d.id == id && d.acknowledged == acknowledged then 1 else 0)
  {
    assert (deliveries + [d])[..|deliveries|] == deliveries;
  }

  /** Once the row in hand is sent it is no longer among those waiting. */
  lemma RestAfterHand(row: Row, rest: seq<Row>)
    requires DistinctIds([row] + rest)
    ensures DistinctIds(rest) && forall r :: r in rest ==> r.id != row.id
  {
    assert ([row] + rest)[1..] == rest;
    TailDistinct([row] + rest);
    forall r | r in rest ensures r.id != row.id {
      var j :| 0 <= j < |rest| && rest[j] == r;
      assert ([row] + rest)[0] == row && ([row] + rest)[j + 1] == r;
    }
  }

  /** The send counts for its own row, on the side the row was on. */
  lemma SendCounts(w: World, raises: bool, id: string)
    requires Enabled(w, Send(raises))
    ensures var t := Step(w, Send(raises));
            && t.sent == w.sent && Attempts(t, id) == Attempts(w, id) && !Holding(t.pc, id)
            && Sends(t.deliveries, id, false)
               == Sends(w.deliveries, id, false) + (if w.pc.row.id == id && id !in w.sent then 1 else 0)
            && Sends(t.deliveries, id, true)
               == Sends(w.deliveries, id, true) + (if w.pc.row.id == id && id in w.sent then 1 else 0)
  {
    var t := Step(w, Send(raises));
    SendsAppend(w.deliveries, t.deliveries[|w.deliveries|], id, false);
    SendsAppend(w.deliveries, t.deliveries[|w.deliveries|], id, true);
  }

  lemma SendKeepsId(w: World, raises: bool, id: string)
    requires Enabled(w, Send(raises)) && IdInv(w, id) && DistinctIds(Waiting(w.pc))
    ensures IdInv(Step(w, Send(raises)), id)
  {
    SendCounts(w, raises, id);
    SentIsBehind(w, raises);
    if w.pc.row.id == id {
      assert Holding(w.pc, id);
      assert w.pc.row in Waiting(w.pc);
    }
  }

  /** The row just sent is not among those still ahead, and no other joined them. */
  lemma SentIsBehind(w: World, raises: bool)
    requires Enabled(w, Send(raises)) && DistinctIds(Waiting(w.pc))
    ensures forall row :: row in Waiting(Step(w, Send(raises)).pc) ==> row in Waiting(w.pc) && row.id != w.pc.row.id
  {
    RestAfterHand(w.pc.row, w.pc.rest);
    assert forall row :: row in w.pc.rest ==> row in Waiting(w.pc);
  }

  lemma SendKeepsInv(w: World, raises: bool)
    requires WorldInv(w) && Enabled(w, Send(raises))
    ensures WorldInv(Step(w, Send(raises)))
  {
    var t := Step(w, Send(raises));
    var d := t.deliveries[|w.deliveries|];
    assert forall x :: x in t.deliveries <==> x in w.deliveries || x == d;
    RestAfterHand(w.pc.row, w.pc.rest);
    forall id | id != "" ensures IdInv(t, id) {
      assert IdInv(w, id);
      SendKeepsId(w, raises, id);
    }
  }

  lemma AcknowledgeKeepsInv(w: World, id: string, stored: bool)
    requires WorldInv(w) && id != ""
    ensures WorldInv(AfterAcknowledge(w, id, stored))
  {
    var t := AfterAcknowledge(w, id, stored);
    forall x | x != "" ensures IdInv(t, x) {
      assert IdInv(w, x);
    }
  }

  lemma StepKeepsInv(w: World, e: Event)
    requires WorldInv(w) && Enabled(w, e)
    ensures WorldInv(Step(w, e))
  {
    var t := Step(w, e);
    match e
    case Recorded(row) =>
      forall id | id != "" ensures IdInv(t, id) {
        assert IdInv(w, id);
      }
    case BeginDrain(limit, mark) => BeginKeepsInv(w, limit, mark);
    case Take => TakeKeepsInv(w);
    case Judge => JudgeKeepsInv(w);
    case Send(raises) => SendKeepsInv(w, raises);
    case Mark =>
      forall id | id != "" ensures IdInv(t, id) {
        assert IdInv(w, id);
      }
    case Acknowledge(id, stored) => AcknowledgeKeepsInv(w, id, stored);
    case Crash =>
      forall id | id != "" ensures IdInv(t, id) {
        assert IdInv(w, id);
      }
  }

  predicate ValidRun(w: World, events: seq<Event>)
    decreases |events|
  {
    events == [] || (Enabled(w, events[0]) && ValidRun(Step(w, events[0]), events[1..]))
  }

  function After(w: World, events: seq<Event>): World
    requires ValidRun(w, events)
    decreases |events|
  {
    if events == [] then w else After(Step(w, events[0]), events[1..])
  }

  lemma {:induction false} RunKeepsInv(w: World, events: seq<Event>)
    requires WorldInv(w) && ValidRun(w, events)
    ensures WorldInv(After(w, events))
    decreases |events|
  {
    if events != [] {
      StepKeepsInv(w, events[0]);
      RunKeepsInv(Step(w, events[0]), events[1..]);
    }
  }

  // ------------------------------------------------------------------- theorems

  function AllSends(w: World, id: string): nat {
    Sends(w.deliveries, id, false) + Sends(w.deliveries, id, true)
  }

  /** The drain has the row in hand or still ahead of it. */
  ghost predicate Ahead(pc: Pc, id: string) {
    exists row :: row in Waiting(pc) && row.id == id
  }

  /** The event does not end the drain, or begin another one. */
  predicate GoesOn(e: Event) {
    !e.BeginDrain? && !e.Crash? && e != Send(true)
  }

  /** Glass reports the row stored when it was sent five times and a drain still has it
      ahead; and that same drain, going on, comes to send it. */
  ghost predicate LateAcknowledgement(before: seq<Event>, between: seq<Event>, id: string) {
    && id != "" && ValidRun(Fresh(), before)
    && id !in After(Fresh(), before).sent && Ahead(After(Fresh(), before).pc, id)
    && Sends(After(Fresh(), before).deliveries, id, false) == MAX_DELIVERY_ATTEMPTS
    && ComesToSend(AfterAcknowledge(After(Fresh(), before), id, true), between, id)
  }

  ghost predicate ComesToSend(w: World, between: seq<Event>, id: string) {
    && ValidRun(w, between) && (forall e :: e in between ==> GoesOn(e))
    && After(w, between).pc.Sending? && After(w, between).pc.row.id == id
  }

  ghost predicate PartOf(events: seq<Event>, before: seq<Event>, id: string, between: seq<Event>, raises: bool) {
    before + [Event.Acknowledge(id, true)] + between + [Send(raises)] <= events
  }

  lemma {:induction false} PrefixRuns(w: World, a: seq<Event>, b: seq<Event>)
    requires ValidRun(w, a + b)
    ensures ValidRun(w, a) && ValidRun(After(w, a), b) && After(w, a + b) == After(After(w, a), b)
    decreases |a|
  {
    if a == [] {
      assert a + b == b;
    } else {
      assert (a + b)[1..] == a[1..] + b;
      PrefixRuns(Step(w, a[0]), a[1..], b);
    }
  }

  lemma LastStep(events: seq<Event>) returns (front: seq<Event>, e: Event)
    requires events != [] && ValidRun(Fresh(), events)
    ensures events == front + [e] && ValidRun(Fresh(), front)
    ensures Enabled(After(Fresh(), front), e) && After(Fresh(), events) == Step(After(Fresh(), front), e)
  {
    front, e := events[..|events| - 1], events[|events| - 1];
    assert events == front + [e] && [e][1..] == [];
    PrefixRuns(Fresh(), front, [e]);
    var w := After(Fresh(), front);
    assert After(w, [e]) == After(Step(w, e), []);
  }

  lemma BeginSkipsStored(w: World, limit: nat, mark: bool, id: string)
    requires DistinctIds(w.runs) && Enabled(w, BeginDrain(limit, mark)) && id in w.sent
    ensures !Ahead(Step(w, BeginDrain(limit, mark)).pc, id)
  {
    PendingRowsAre(w, w.runs);
    var picked := Limited(PendingRows(w, w.runs), limit);
    forall row | row in picked ensures row.id != id {
      assert row in PendingRows(w, w.runs);
    }
  }

  lemma MarkedIsNotAhead(w: World)
    requires WorldInv(w) && Enabled(w, Mark)
    ensures !Ahead(Step(w, Mark).pc, w.pc.row.id)
  {
  }

  /** A stored row stays ahead of a drain only if the drain had it already and goes on. */
  lemma StoredStaysAhead(w: World, e: Event, id: string)
    requires WorldInv(w) && Enabled(w, e) && id in w.sent && Ahead(Step(w, e).pc, id)
    ensures Ahead(w.pc, id) && GoesOn(e)
    ensures Sends(Step(w, e).deliveries, id, false) == Sends(w.deliveries, id, false)
  {
    if e.BeginDrain? {
      BeginSkipsStored(w, e.limit, e.mark, id);
    } else {
      var row :| row in Waiting(Step(w, e).pc) && row.id == id;
      WaitingShrinks(w, e, row);
    }
    if e.Send? {
      SendsAppend(w.deliveries, Step(w, e).deliveries[|w.deliveries|], id, false);
    }
  }

  lemma WaitingShrinks(w: World, e: Event, row: Row)
    requires Enabled(w, e) && !e.BeginDrain? && row in Waiting(Step(w, e).pc)
    ensures row in Waiting(w.pc) && GoesOn(e)
  {
    if e.Take? && w.pc.rest != [] {
      assert [w.pc.rest[0]] + w.pc.rest[1..] == w.pc.rest;
    }
  }

  /** A row enters the stored ones ahead of a drain by an acknowledgement alone. */
  lemma StoredAheadIsAcknowledged(w: World, e: Event, id: string)
    requires WorldInv(w) && Enabled(w, e) && id !in w.sent && id in Step(w, e).sent && Ahead(Step(w, e).pc, id)
    ensures e == Event.Acknowledge(id, true)
  {
    if e.Mark? {
      MarkedIsNotAhead(w);
    }
  }

  /** The run splits at the acknowledgement of a row some drain had ahead and still has. */
  ghost predicate StoredMidway(events: seq<Event>, before: seq<Event>, between: seq<Event>, id: string) {
    && events == before + [Event.Acknowledge(id, true)] + between && ValidRun(Fresh(), before)
    && id !in After(Fresh(), before).sent && Ahead(After(Fresh(), before).pc, id)
    && ValidRun(AfterAcknowledge(After(Fresh(), before), id, true), between)
    && (forall e :: e in between ==> GoesOn(e))
  }

  lemma StoredMidwayOn(events: seq<Event>, before: seq<Event>, between: seq<Event>, id: string, e: Event)
    requires StoredMidway(events, before, between, id) && GoesOn(e)
    requires Enabled(After(AfterAcknowledge(After(Fresh(), before), id, true), between), e)
    ensures StoredMidway(events + [e], before, between + [e], id)
    ensures After(AfterAcknowledge(After(Fresh(), before), id, true), between + [e])
         == Step(After(AfterAcknowledge(After(Fresh(), before), id, true), between), e)
  {
    RunSnoc(AfterAcknowledge(After(Fresh(), before), id, true), between, e);
    assert events + [e] == before + [Event.Acknowledge(id, true)] + (between + [e]);
    assert forall x :: x in between + [e] ==> x in between || x == e;
  }

  /** Where a stored row that a drain still has ahead was acknowledged. */
  lemma {:induction false} AcknowledgedAhead(events: seq<Event>, id: string)
    returns (before: seq<Event>, between: seq<Event>)
    requires ValidRun(Fresh(), events) && id != ""
    requires id in After(Fresh(), events).sent && Ahead(After(Fresh(), events).pc, id)
    ensures StoredMidway(events, before, between, id)
    ensures Sends(After(Fresh(), before).deliveries, id, false) == Sends(After(Fresh(), events).deliveries, id, false)
    ensures After(AfterAcknowledge(After(Fresh(), before), id, true), between) == After(Fresh(), events)
    decreases |events|
  {
    var front, e := LastStep(events);
    var w := After(Fresh(), front);
    RunKeepsInv(Fresh(), front);
    if id in w.sent {
      StoredStaysAhead(w, e, id);
      before, between := AcknowledgedAhead(front, id);
      StoredMidwayOn(front, before, between, id, e);
      between := between + [e];
    } else {
      StoredAheadIsAcknowledged(w, e, id);
      before, between := front, [];
      assert events == before + [Event.Acknowledge(id, true)] + [];
    }
  }

  lemma RunSnoc(w: World, events: seq<Event>, e: Event)
    requires ValidRun(w, events) && Enabled(After(w, events), e)
    ensures ValidRun(w, events + [e]) && After(w, events + [e]) == Step(After(w, events), e)
  {
    assert [e][1..] == [];
    RunConcat(w, events, [e]);
  }

  lemma {:induction false} SendsOnlyGrow(w: World, events: seq<Event>, id: string, acknowledged: bool)
    requires ValidRun(w, events)
    ensures Sends(w.deliveries, id, acknowledged) <= Sends(After(w, events).deliveries, id, acknowledged)
    ensures id in w.sent ==> id in After(w, events).sent
    decreases |events|
  {
    if events != [] {
      var t := Step(w, events[0]);
      if events[0].Send? {
        SendsAppend(w.deliveries, t.deliveries[|w.deliveries|], id, acknowledged);
      }
      SendsOnlyGrow(t, events[1..], id, acknowledged);
    }
  }

  /** Six sends need a late acknowledgement. */
  lemma {:induction false} SixthNeedsLate(events: seq<Event>, id: string)
    returns (before: seq<Event>, between: seq<Event>, raises: bool)
    requires ValidRun(Fresh(), events) && id != "" && AllSends(After(Fresh(), events), id) > MAX_DELIVERY_ATTEMPTS
    ensures LateAcknowledgement(before, between, id) && PartOf(events, before, id, between, raises)
    decreases |events|
  {
    var front, e := LastStep(events);
    var w := After(Fresh(), front);
    RunKeepsInv(Fresh(), front);
    RunKeepsInv(Fresh(), events);
    assert IdInv(w, id) && IdInv(Step(w, e), id);
    if AllSends(w, id) > MAX_DELIVERY_ATTEMPTS {
      before, between, raises := SixthNeedsLate(front, id);
    } else {
      LastSendIsLate(w, e, id);
      before, between := AcknowledgedAhead(front, id);
      raises := e.raises;
      assert events == before + [Event.Acknowledge(id, true)] + between + [Send(raises)];
    }
  }

  lemma LastSendIsLate(w: World, e: Event, id: string)
    requires WorldInv(w) && Enabled(w, e) && id != "" && IdInv(w, id) && IdInv(Step(w, e), id)
    requires AllSends(w, id) <= MAX_DELIVERY_ATTEMPTS < AllSends(Step(w, e), id)
    ensures e.Send? && w.pc.row.id == id && id in w.sent && Ahead(w.pc, id)
    ensures Sends(w.deliveries, id, false) == MAX_DELIVERY_ATTEMPTS
  {
    assert e.Send?;
    SendsAppend(w.deliveries, Step(w, e).deliveries[|w.deliveries|], id, false);
    SendsAppend(w.deliveries, Step(w, e).deliveries[|w.deliveries|], id, true);
    assert w.pc.row in Waiting(w.pc);
  }

  /** A late acknowledgement is followed by a sixth send. */
  lemma LateMeansSixth(events: seq<Event>, before: seq<Event>, id: string, between: seq<Event>, raises: bool)
    requires ValidRun(Fresh(), events)
    requires LateAcknowledgement(before, between, id) && PartOf(events, before, id, between, raises)
    ensures AllSends(After(Fresh(), events), id) > MAX_DELIVERY_ATTEMPTS
  {
    var acknowledged := Event.Acknowledge(id, true);
    var run := before + [acknowledged] + between;
    var rest := events[|run| + 1..];
    assert events == (run + [Send(raises)]) + rest;
    var w := After(Fresh(), before);
    RunSnoc(Fresh(), before, acknowledged);
    RunConcat(Fresh(), before + [acknowledged], between);
    var u := After(Fresh(), run);
    SendsOnlyGrow(AfterAcknowledge(w, id, true), between, id, false);
    RunSnoc(Fresh(), run, Send(raises));
    SendsAppend(u.deliveries, Step(u, Send(raises)).deliveries[|u.deliveries|], id, false);
    SendsAppend(u.deliveries, Step(u, Send(raises)).deliveries[|u.deliveries|], id, true);
    PrefixRuns(Fresh(), run + [Send(raises)], rest);
    SendsOnlyGrow(Step(u, Send(raises)), rest, id, false);
    SendsOnlyGrow(Step(u, Send(raises)), rest, id, true);
  }

  /** Across crashes, raising sends and acknowledgements at any moment, a row goes out
      at most five times before it is stored and once after; and the bound of five is
      passed if and only if Glass reported it stored, after five sends, while a drain
      still had it ahead, and that drain went on to send it. */
  lemma DeliveryIsBounded(events: seq<Event>, id: string)
    requires ValidRun(Fresh(), events) && id != ""
    ensures var w := After(Fresh(), events);
            && Sends(w.deliveries, id, false) <= MAX_DELIVERY_ATTEMPTS
            && Sends(w.deliveries, id, true) <= 1
            && (id !in w.sent ==> AllSends(w, id) <= MAX_DELIVERY_ATTEMPTS)
    ensures AllSends(After(Fresh(), events), id) == MAX_DELIVERY_ATTEMPTS + 1
            <==> exists before, between, raises ::
                   LateAcknowledgement(before, between, id) && PartOf(events, before, id, between, raises)
  {
    RunKeepsInv(Fresh(), events);
    assert IdInv(After(Fresh(), events), id);
    if AllSends(After(Fresh(), events), id) > MAX_DELIVERY_ATTEMPTS {
      var before, between, raises := SixthNeedsLate(events, id);
    } else if before, between, raises :|
        LateAcknowledgement(before, between, id) && PartOf(events, before, id, between, raises) {
      LateMeansSixth(events, before, id, between, raises);
    }
  }

  /** No frame the transport would refuse is ever handed to it. */
  lemma NoOversizedFrame(events: seq<Event>, d: Delivery)
    requires ValidRun(Fresh(), events) && d in After(Fresh(), events).deliveries
    ensures d.bytes <= MAX_FRAME_BYTES
  {
    RunKeepsInv(Fresh(), events);
  }

  /** How many more drains a row can go through before it leaves the queue; a crash
      between counting and dead-lettering leaves one. */
  function DrainsLeft(w: World, row: Row): nat {
    if row.id == "" || row.frame.None? || !Pending(w, row) then 0
    else if Attempts(w, row.id) > MAX_DELIVERY_ATTEMPTS then 1
    else MAX_DELIVERY_ATTEMPTS + 2 - Attempts(w, row.id)
  }

  function Backlog(w: World, rows: seq<Row>): nat {
    if rows == [] then 0 else DrainsLeft(w, rows[0]) + Backlog(w, rows[1..])
  }

  lemma {:induction false} BacklogSame(w: World, t: World, rows: seq<Row>)
    requires forall row :: row in rows ==> DrainsLeft(t, row) == DrainsLeft(w, row)
    ensures Backlog(t, rows) == Backlog(w, rows)
  {
    if rows != [] {
      assert forall row :: row in rows[1..] ==> row in rows;
      BacklogSame(w, t, rows[1..]);
    }
  }

  lemma {:induction false} BacklogDrops(w: World, t: World, rows: seq<Row>, row: Row)
    requires DistinctIds(rows) && row in rows && DrainsLeft(t, row) < DrainsLeft(w, row)
    requires forall r :: r in rows && r.id != row.id ==> DrainsLeft(t, r) == DrainsLeft(w, r)
    ensures Backlog(t, rows) < Backlog(w, rows)
  {
    assert forall i :: 0 <= i < |rows[1..]| ==> rows[1..][i] == rows[i + 1];
    assert forall r :: r in rows <==> r == rows[0] || r in rows[1..];
    forall r | r in rows[1..] ensures r.id != rows[0].id {
      var i :| 0 <= i < |rows[1..]| && rows[1..][i] == r;
      assert rows[i + 1] == r;
    }
    if rows[0] == row {
      BacklogSame(w, t, rows[1..]);
    } else {
      BacklogDrops(w, t, rows[1..], row);
    }
  }

  /** Taking a pending row and judging it uses up one of its drains. */
  lemma EveryDrainCounts(w: World, mark: bool)
    requires WorldInv(w) && w.pc.Ready? && w.pc.rest != []
    requires var row := w.pc.rest[0]; row in w.runs && row.id != "" && row.frame.Some? && Pending(w, row)
    ensures var t := Step(Step(w, Take), Judge);
            Backlog(t, t.runs) < Backlog(w, w.runs)
  {
    var row := w.pc.rest[0];
    var t := Step(Step(w, Take), Judge);
    BacklogDrops(w, t, w.runs, row);
  }

  lemma {:induction false} RunConcat(w: World, a: seq<Event>, b: seq<Event>)
    requires ValidRun(w, a) && ValidRun(After(w, a), b)
    ensures ValidRun(w, a + b) && After(w, a + b) == After(After(w, a), b)
    decreases |a|
  {
    if a == [] {
      assert a + b == b;
    } else {
      assert (a + b)[1..] == a[1..] + b;
      RunConcat(Step(w, a[0]), a[1..], b);
    }
  }

  lemma Then(w: World, e: Event, rest: seq<Event>)
    requires Enabled(w, e) && ValidRun(Step(w, e), rest)
    ensures ValidRun(w, [e] + rest) && After(w, [e] + rest) == After(Step(w, e), rest)
  {
    assert ([e] + rest)[1..] == rest;
  }

  /** A deliverable row alone in the queue, sent `n` times without an answer. */
  predicate SentTimes(w: World, row: Row, n: nat) {
    && w.runs == [row] && w.pc.Idle? && w.sent == {} && w.rejected == {}
    && Attempts(w, row.id) == n && Sends(w.deliveries, row.id, false) == n
  }

  lemma OneMoreSend(w: World, row: Row, n: nat) returns (events: seq<Event>)
    requires row.id != "" && row.frame.Some? && Bytes(Shrink(row.frame.value, row.noteBytes)) <= MAX_FRAME_BYTES
    requires SentTimes(w, row, n) && n < MAX_DELIVERY_ATTEMPTS
    ensures ValidRun(w, events) && SentTimes(After(w, events), row, n + 1)
  {
    var w1 := Step(w, BeginDrain(50, false));
    assert PendingRows(w, w.runs) == [row];
    var w2 := Step(w1, Take);
    var w3 := Step(w2, Judge);
    var w4 := Step(w3, Send(true));
    SendsAppend(w.deliveries, w4.deliveries[|w.deliveries|], row.id, false);
    Then(w3, Send(true), []);
    Then(w2, Judge, [Send(true)] + []);
    Then(w1, Take, [Judge] + ([Send(true)] + []));
    Then(w, BeginDrain(50, false), [Take] + ([Judge] + ([Send(true)] + [])));
    events := [BeginDrain(50, false)] + ([Take] + ([Judge] + ([Send(true)] + [])));
  }

  lemma {:induction false} SentWithoutAnswer(row: Row, n: nat) returns (events: seq<Event>)
    requires row.id != "" && row.frame.Some? && Bytes(Shrink(row.frame.value, row.noteBytes)) <= MAX_FRAME_BYTES
    requires n <= MAX_DELIVERY_ATTEMPTS
    ensures ValidRun(Fresh(), events) && SentTimes(After(Fresh(), events), row, n)
  {
    if n == 0 {
      Then(Fresh(), Recorded(row), []);
      events := [Recorded(row)] + [];
    } else {
      var before := SentWithoutAnswer(row, n - 1);
      var more := OneMoreSend(After(Fresh(), before), row, n - 1);
      RunConcat(Fresh(), before, more);
      events := before + more;
    }
  }

  /** The bound of five can be passed: a row sent five times without an answer, picked
      by a sixth drain, acknowledged late, and sent once more. */
  lemma SixthSend(row: Row) returns (events: seq<Event>)
    requires row.id != "" && row.frame.Some? && Bytes(Shrink(row.frame.value, row.noteBytes)) <= MAX_FRAME_BYTES
    ensures ValidRun(Fresh(), events) && AllSends(After(Fresh(), events), row.id) == MAX_DELIVERY_ATTEMPTS + 1
  {
    var before := SentWithoutAnswer(row, MAX_DELIVERY_ATTEMPTS);
    var w := After(Fresh(), before);
    var acknowledged := Event.Acknowledge(row.id, true);
    assert PendingRows(w, w.runs) == [row];
    var w1 := Step(w, BeginDrain(50, false));
    var w2 := Step(w1, acknowledged);
    var w3 := Step(w2, Take);
    var w4 := Step(w3, Judge);
    var w5 := Step(w4, Send(false));
    SendsAppend(w.deliveries, w5.deliveries[|w.deliveries|], row.id, false);
    SendsAppend(w.deliveries, w5.deliveries[|w.deliveries|], row.id, true);
    RunKeepsInv(Fresh(), before);
    assert IdInv(w, row.id);
    Then(w4, Send(false), []);
    Then(w3, Judge, [Send(false)] + []);
    Then(w2, Take, [Judge] + ([Send(false)] + []));
    Then(w1, acknowledged, [Take] + ([Judge] + ([Send(false)] + [])));
    Then(w, BeginDrain(50, false), [acknowledged] + ([Take] + ([Judge] + ([Send(false)] + []))));
    var more := [BeginDrain(50, false)] + ([acknowledged] + ([Take] + ([Judge] + ([Send(false)] + []))));
    RunConcat(Fresh(), before, more);
    events := before + more;
  }
}
