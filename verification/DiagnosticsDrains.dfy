/** Several drains at once over one delivery queue: each is a drain of `DiagnosticsQueue`
    with a place of its own, and their steps interleave. */
module DiagnosticsDrains {
  import opened Common
  import opened DiagnosticsQueue

  /** The tables, and where each drain stands; `tables.pc` is not used. */
  datatype Shared = Shared(tables: World, drains: map<nat, Pc>)

  /** `Reread`: the counter is read after it was written, so it may show the attempts other
      drains have counted meanwhile.  Finding it deleted raises, which is a `Crash`. */
  datatype Move = By(d: nat, e: Event) | Reread(d: nat)

  function As(s: Shared, d: nat): World
    requires d in s.drains
  {
    s.tables.(pc := s.drains[d])
  }

  predicate CanMove(s: Shared, m: Move) {
    && m.d in s.drains
    && match m
       case By(d, e) => Enabled(As(s, d), e)
       case Reread(d) => s.drains[d].Counted? && s.drains[d].row.id in s.tables.attempts
  }

  function Moved(s: Shared, m: Move): Shared
    requires CanMove(s, m)
  {
    match m
    case By(d, e) =>
      var t := Step(As(s, d), e);
      Shared(t.(pc := Idle), s.drains[d := t.pc])
    case Reread(d) =>
      var pc := s.drains[d];
      s.(drains := s.drains[d := pc.(count := s.tables.attempts[pc.row.id])])
  }

  predicate ValidMoves(s: Shared, moves: seq<Move>)
    decreases |moves|
  {
    moves == [] || (CanMove(s, moves[0]) && ValidMoves(Moved(s, moves[0]), moves[1..]))
  }

  function AfterMoves(s: Shared, moves: seq<Move>): Shared
    requires ValidMoves(s, moves)
    decreases |moves|
  {
    if moves == [] then s else AfterMoves(Moved(s, moves[0]), moves[1..])
  }

  function Resting(drains: set<nat>): Shared {
    Shared(Fresh(), map d | d in drains :: Idle)
  }

  // ------------------------------------------------------------------ invariant

  /** A counted attempt within the bound that may still become a send. */
  predicate Claims(pc: Pc, id: string) {
    && (pc.Counted? || pc.Sending?) && pc.row.id == id
    && (pc.Counted? ==> pc.count <= MAX_DELIVERY_ATTEMPTS)
  }

  function Claimants(s: Shared, id: string): set<nat> {
    set d | d in s.drains && Claims(s.drains[d], id)
  }

  /** The drains that have the row in hand or still ahead. */
  ghost function Holders(s: Shared, id: string): set<nat> {
    set d | d in s.drains && Ahead(s.drains[d], id)
  }

  ghost predicate PlaceInv(pc: Pc) {
    DistinctIds(Waiting(pc)) && (pc.Marking? ==> forall row :: row in pc.rest ==> row.id != pc.row.id)
  }

  ghost predicate PlacesInv(s: Shared) {
    DistinctIds(s.tables.runs) && forall d :: d in s.drains ==> PlaceInv(s.drains[d])
  }

  ghost predicate Unstored(s: Shared, id: string) {
    && Sends(s.tables.deliveries, id, true) == 0
    && Sends(s.tables.deliveries, id, false) + |Claimants(s, id)| <= MAX_DELIVERY_ATTEMPTS
    && Sends(s.tables.deliveries, id, false) + |Claimants(s, id)| <= Attempts(s.tables, id)
    && forall d :: d in s.drains && s.drains[d].Counted? && s.drains[d].row.id == id ==>
         s.drains[d].count <= Attempts(s.tables, id)
  }

  /** Once the row is stored each drain that had it ahead may send it once more. */
  ghost predicate Stored(s: Shared, id: string) {
    && Sends(s.tables.deliveries, id, false) <= MAX_DELIVERY_ATTEMPTS
    && Sends(s.tables.deliveries, id, true) + |Holders(s, id)| <= |s.drains|
  }

  ghost predicate CountInv(s: Shared, id: string) {
    if id in s.tables.sent then Stored(s, id) else Unstored(s, id)
  }

  /** Two sets that differ at most in one element. */
  lemma Exchange(a: set<nat>, b: set<nat>, d: nat)
    requires forall x :: x != d ==> (x in a <==> x in b)
    ensures |b| + (if d in a then 1 else 0) == |a| + (if d in b then 1 else 0)
  {
    var rest := a - {d};
    assert a == if d in a then rest + {d} else rest;
    assert b == if d in b then rest + {d} else rest;
  }

  lemma OneClaimant(s: Shared, t: Shared, d: nat, id: string)
    requires d in s.drains && d in t.drains && t.drains == s.drains[d := t.drains[d]]
    ensures |Claimants(t, id)| + (if Claims(s.drains[d], id) then 1 else 0)
         == |Claimants(s, id)| + (if Claims(t.drains[d], id) then 1 else 0)
  {
    Exchange(Claimants(s, id), Claimants(t, id), d);
  }

  lemma OneHolder(s: Shared, t: Shared, d: nat, id: string)
    requires d in s.drains && d in t.drains && t.drains == s.drains[d := t.drains[d]]
    ensures |Holders(t, id)| + (if Ahead(s.drains[d], id) then 1 else 0)
         == |Holders(s, id)| + (if Ahead(t.drains[d], id) then 1 else 0)
  {
    forall x | x != d ensures x in Holders(s, id) <==> x in Holders(t, id) {
      assert x in s.drains ==> t.drains[x] == s.drains[x];
    }
    Exchange(Holders(s, id), Holders(t, id), d);
  }

  lemma HoldersAreDrains(s: Shared, id: string)
    ensures |Holders(s, id)| <= |s.drains|
  {
    assert Holders(s, id) <= s.drains.Keys;
    SubsetSize(Holders(s, id), s.drains.Keys);
    assert |s.drains| == |s.drains.Keys|;
  }

  lemma {:induction false} SubsetSize(a: set<nat>, b: set<nat>)
    requires a <= b
    ensures |a| <= |b|
  {
    if a != {} {
      var x :| x in a;
      SubsetSize(a - {x}, b - {x});
    }
  }

  // ------------------------------------------------------ one drain among several

  lemma PlaceStep(w: World, e: Event)
    requires DistinctIds(w.runs) && PlaceInv(w.pc) && Enabled(w, e)
    ensures DistinctIds(Step(w, e).runs) && PlaceInv(Step(w, e).pc)
  {
    match e
    case BeginDrain(_, _) => PendingRowsAre(w, w.runs);
    case Take =>
      if w.pc.rest != [] {
        TailDistinct(w.pc.rest);
        assert [w.pc.rest[0]] + w.pc.rest[1..] == w.pc.rest;
      }
    case Judge => RestAfterHand(w.pc.row, w.pc.rest);
    case Send(_) => RestAfterHand(w.pc.row, w.pc.rest);
    case _ =>
  }

  lemma OnlySendsDeliver(w: World, e: Event)
    requires Enabled(w, e)
    ensures w.sent <= Step(w, e).sent
    ensures !e.Send? ==> Step(w, e).deliveries == w.deliveries
    ensures e.Send? ==> Step(w, e).deliveries == w.deliveries + [Step(w, e).deliveries[|w.deliveries|]]
                        && Step(w, e).deliveries[|w.deliveries|].id == w.pc.row.id
                        && Step(w, e).deliveries[|w.deliveries|].acknowledged == (w.pc.row.id in w.sent)
  {
    match e
    case Recorded(_) =>
    case BeginDrain(_, _) =>
    case Take =>
    case Judge =>
    case Send(_) =>
    case Mark =>
    case Acknowledge(_, _) =>
    case Crash =>
  }

  /** What one step does to a row's sends: it counts one exactly for the row in hand. */
  lemma SendsStep(w: World, e: Event, id: string, acknowledged: bool)
    requires Enabled(w, e)
    ensures Sends(Step(w, e).deliveries, id, acknowledged)
         == Sends(w.deliveries, id, acknowledged)
            + (if e.Send? && w.pc.row.id == id && (id in w.sent) == acknowledged then 1 else 0)
  {
    OnlySendsDeliver(w, e);
    if e.Send? {
      SendsAppend(w.deliveries, Step(w, e).deliveries[|w.deliveries|], id, acknowledged);
    }
  }

  /** As long as the row is not stored: a send uses up a claim, and a claim an attempt. */
  lemma ClaimStep(w: World, e: Event, id: string)
    requires Enabled(w, e) && id != "" && id !in Step(w, e).sent
    ensures var t := Step(w, e);
            && id !in w.sent && Attempts(w, id) <= Attempts(t, id)
            && (if Claims(t.pc, id) then 1 else 0) + (if e.Send? && w.pc.row.id == id then 1 else 0)
               <= (if Claims(w.pc, id) then 1 else 0) + (Attempts(t, id) - Attempts(w, id))
            && (Claims(t.pc, id) && !Claims(w.pc, id) ==>
                  t.pc.Counted? && t.pc.count == Attempts(t, id) == Attempts(w, id) + 1)
            && (t.pc.Counted? && t.pc.row.id == id && !(w.pc.Counted? && w.pc == t.pc) ==> t.pc.count == Attempts(t, id))
  {
  }

  lemma HoldStep(w: World, e: Event, id: string)
    requires DistinctIds(w.runs) && PlaceInv(w.pc) && Enabled(w, e) && id in w.sent
    ensures (if Ahead(Step(w, e).pc, id) then 1 else 0) + (if e.Send? && w.pc.row.id == id then 1 else 0)
            <= (if Ahead(w.pc, id) then 1 else 0)
  {
    if Ahead(Step(w, e).pc, id) {
      if e.BeginDrain? {
        BeginSkipsStored(w, e.limit, e.mark, id);
      } else {
        var row :| row in Waiting(Step(w, e).pc) && row.id == id;
        WaitingShrinks(w, e, row);
      }
    }
    if e.Send? && w.pc.row.id == id {
      assert w.pc.row in Waiting(w.pc);
      RestAfterHand(w.pc.row, w.pc.rest);
    }
  }

  // ------------------------------------------------------------- all of them together

  lemma MoveKeepsPlaces(s: Shared, m: Move)
    requires PlacesInv(s) && CanMove(s, m)
    ensures PlacesInv(Moved(s, m))
  {
    if m.By? {
      PlaceStep(As(s, m.d), m.e);
    } else {
      assert Waiting(Moved(s, m).drains[m.d]) == Waiting(s.drains[m.d]);
    }
  }

  lemma UnstoredStays(s: Shared, d: nat, e: Event, id: string)
    requires CanMove(s, By(d, e)) && id != "" && id !in Moved(s, By(d, e)).tables.sent && Unstored(s, id)
    ensures Unstored(Moved(s, By(d, e)), id)
  {
    var w, t := As(s, d), Moved(s, By(d, e));
    ClaimStep(w, e, id);
    SendsStep(w, e, id, false);
    SendsStep(w, e, id, true);
    OneClaimant(s, t, d, id);
    if Claims(t.drains[d], id) && !Claims(s.drains[d], id) {
      assert t.drains[d].count == Attempts(t.tables, id) <= MAX_DELIVERY_ATTEMPTS;
    }
  }

  lemma NowStored(s: Shared, d: nat, e: Event, id: string)
    requires CanMove(s, By(d, e)) && id != "" && id !in s.tables.sent && id in Moved(s, By(d, e)).tables.sent
    requires Unstored(s, id)
    ensures Stored(Moved(s, By(d, e)), id)
  {
    var w, t := As(s, d), Moved(s, By(d, e));
    assert !e.Send?;
    SendsStep(w, e, id, false);
    SendsStep(w, e, id, true);
    HoldersAreDrains(t, id);
  }

  lemma SameDrains(s: Shared, m: Move)
    requires CanMove(s, m)
    ensures Moved(s, m).drains.Keys == s.drains.Keys && |Moved(s, m).drains| == |s.drains|
    ensures Moved(s, m).drains == s.drains[m.d := Moved(s, m).drains[m.d]]
  {
    assert Moved(s, m).drains.Keys == s.drains.Keys;
    assert |Moved(s, m).drains| == |Moved(s, m).drains.Keys| && |s.drains| == |s.drains.Keys|;
  }

  /** A move by a drain leaves the tables its own step leads to. */
  lemma TablesOf(s: Shared, d: nat, e: Event)
    requires CanMove(s, By(d, e))
    ensures Moved(s, By(d, e)).tables.sent == Step(As(s, d), e).sent
    ensures Moved(s, By(d, e)).tables.deliveries == Step(As(s, d), e).deliveries
    ensures As(s, d).sent == s.tables.sent && As(s, d).deliveries == s.tables.deliveries && As(s, d).pc == s.drains[d]
  {
  }

  lemma HoldersUseUp(s: Shared, d: nat, e: Event, id: string)
    requires PlacesInv(s) && CanMove(s, By(d, e)) && id in s.tables.sent
    ensures |Holders(Moved(s, By(d, e)), id)| + (if e.Send? && s.drains[d].row.id == id then 1 else 0) <= |Holders(s, id)|
  {
    assert PlaceInv(s.drains[d]);
    HoldStep(As(s, d), e, id);
    SameDrains(s, By(d, e));
    OneHolder(s, Moved(s, By(d, e)), d, id);
  }

  lemma StoredStays(s: Shared, d: nat, e: Event, id: string)
    requires PlacesInv(s) && CanMove(s, By(d, e)) && id in s.tables.sent
    ensures var t := Moved(s, By(d, e));
            && id in t.tables.sent && |t.drains| == |s.drains|
            && Sends(t.tables.deliveries, id, false) == Sends(s.tables.deliveries, id, false)
            && Sends(t.tables.deliveries, id, true) + |Holders(t, id)|
               <= Sends(s.tables.deliveries, id, true) + |Holders(s, id)|
  {
    OnlySendsDeliver(As(s, d), e);
    TablesOf(s, d, e);
    HoldersUseUp(s, d, e, id);
    SendsStep(As(s, d), e, id, false);
    SendsStep(As(s, d), e, id, true);
    SameDrains(s, By(d, e));
  }

  /** Reading the counter again moves no row. */
  lemma RereadHolds(s: Shared, d: nat, id: string)
    requires CanMove(s, Reread(d))
    ensures |Holders(Moved(s, Reread(d)), id)| == |Holders(s, id)|
  {
    var t := Moved(s, Reread(d));
    SameDrains(s, Reread(d));
    OneHolder(s, t, d, id);
    assert Waiting(t.drains[d]) == Waiting(s.drains[d]);
  }

  /** Nor does it make a claim that was not one. */
  lemma RereadUnstored(s: Shared, d: nat, id: string)
    requires CanMove(s, Reread(d)) && id != "" && Unstored(s, id)
    ensures Unstored(Moved(s, Reread(d)), id)
  {
    var t := Moved(s, Reread(d));
    SameDrains(s, Reread(d));
    OneClaimant(s, t, d, id);
    if Claims(t.drains[d], id) {
      assert s.drains[d].count <= Attempts(s.tables, id) == t.drains[d].count;
    }
  }

  lemma MoveKeepsCount(s: Shared, m: Move, id: string)
    requires PlacesInv(s) && CanMove(s, m) && id != "" && CountInv(s, id)
    ensures CountInv(Moved(s, m), id)
  {
    match m
    case Reread(d) =>
      if id in s.tables.sent {
        RereadHolds(s, d, id);
        SameDrains(s, m);
      } else {
        RereadUnstored(s, d, id);
      }
    case By(d, e) =>
      if id in s.tables.sent {
        StoredStays(s, d, e, id);
      } else if id in Moved(s, m).tables.sent {
        NowStored(s, d, e, id);
      } else {
        UnstoredStays(s, d, e, id);
      }
  }

  lemma {:induction false} MovesKeepCount(s: Shared, moves: seq<Move>, id: string)
    requires PlacesInv(s) && ValidMoves(s, moves) && id != "" && CountInv(s, id)
    ensures PlacesInv(AfterMoves(s, moves)) && CountInv(AfterMoves(s, moves), id)
    ensures AfterMoves(s, moves).drains.Keys == s.drains.Keys
    decreases |moves|
  {
    if moves != [] {
      MoveKeepsPlaces(s, moves[0]);
      MoveKeepsCount(s, moves[0], id);
      SameDrains(s, moves[0]);
      MovesKeepCount(Moved(s, moves[0]), moves[1..], id);
    }
  }

  lemma RestingInv(drains: set<nat>, id: string)
    ensures PlacesInv(Resting(drains)) && CountInv(Resting(drains), id)
  {
    assert Claimants(Resting(drains), id) == {};
  }

  /** However many drains run at once over one queue: before a row is stored it goes out at
      most five times in all, and once it is stored at most once more for each drain. */
  lemma ManyDrainsAreBounded(drains: set<nat>, moves: seq<Move>, id: string)
    requires ValidMoves(Resting(drains), moves) && id != ""
    ensures var t := AfterMoves(Resting(drains), moves).tables;
            && Sends(t.deliveries, id, false) <= MAX_DELIVERY_ATTEMPTS
            && Sends(t.deliveries, id, true) <= |drains|
            && (id !in t.sent ==> AllSends(t, id) <= MAX_DELIVERY_ATTEMPTS)
  {
    RestingInv(drains, id);
    MovesKeepCount(Resting(drains), moves, id);
    assert Resting(drains).drains.Keys == drains;
    var s := AfterMoves(Resting(drains), moves);
    assert |s.drains| == |s.drains.Keys| == |drains|;
  }

  /** From the moment a row is stored on, only the drains that had it ahead by then send it,
      each once at most. */
  lemma {:induction false} OnlyHoldersSendLate(s: Shared, moves: seq<Move>, id: string)
    requires PlacesInv(s) && ValidMoves(s, moves) && id != "" && id in s.tables.sent && CountInv(s, id)
    ensures Sends(AfterMoves(s, moves).tables.deliveries, id, true) + |Holders(AfterMoves(s, moves), id)|
            <= Sends(s.tables.deliveries, id, true) + |Holders(s, id)|
    decreases |moves|
  {
    if moves != [] {
      MoveKeepsPlaces(s, moves[0]);
      MoveKeepsCount(s, moves[0], id);
      match moves[0] {
        case Reread(d) => RereadHolds(s, d, id);
        case By(d, e) => StoredStays(s, d, e, id);
      }
      OnlyHoldersSendLate(Moved(s, moves[0]), moves[1..], id);
    }
  }

  // ------------------------------------------------------------------ two drains

  function AllBy(d: nat, events: seq<Event>): seq<Move> {
    if events == [] then [] else [By(d, events[0])] + AllBy(d, events[1..])
  }

  /** What one drain does alone, it does among others. */
  lemma {:induction false} Alone(s: Shared, d: nat, events: seq<Event>)
    requires d in s.drains && ValidRun(As(s, d), events)
    ensures ValidMoves(s, AllBy(d, events))
    ensures var w := After(As(s, d), events);
            && AfterMoves(s, AllBy(d, events)).drains == s.drains[d := w.pc]
            && AfterMoves(s, AllBy(d, events)).tables == w.(pc := AfterMoves(s, AllBy(d, events)).tables.pc)
            && (s.tables.pc.Idle? ==> AfterMoves(s, AllBy(d, events)).tables.pc.Idle?)
    decreases |events|
  {
    if events == [] {
      assert s.drains[d := s.drains[d]] == s.drains;
    } else {
      var t := Moved(s, By(d, events[0]));
      assert As(t, d) == Step(As(s, d), events[0]);
      Alone(t, d, events[1..]);
      assert AllBy(d, events)[1..] == AllBy(d, events[1..]);
    }
  }

  lemma MovesConcat(s: Shared, a: seq<Move>, b: seq<Move>)
    requires ValidMoves(s, a) && ValidMoves(AfterMoves(s, a), b)
    ensures ValidMoves(s, a + b) && AfterMoves(s, a + b) == AfterMoves(AfterMoves(s, a), b)
    decreases |a|
  {
    if a == [] {
      assert a + b == b;
    } else {
      assert (a + b)[1..] == a[1..] + b;
      MovesConcat(Moved(s, a[0]), a[1..], b);
    }
  }

  lemma Goes(s: Shared, moves: seq<Move>, m: Move) returns (longer: seq<Move>)
    requires ValidMoves(s, moves) && CanMove(AfterMoves(s, moves), m)
    ensures ValidMoves(s, longer) && AfterMoves(s, longer) == Moved(AfterMoves(s, moves), m)
  {
    var t := AfterMoves(s, moves);
    assert [m][0] == m && [m][1..] == [];
    assert ValidMoves(Moved(t, m), [m][1..]) && AfterMoves(Moved(t, m), [m][1..]) == Moved(t, m);
    MovesConcat(s, moves, [m]);
    longer := moves + [m];
  }

  predicate Deliverable(row: Row) {
    row.id != "" && row.frame.Some? && Bytes(Shrink(row.frame.value, row.noteBytes)) <= MAX_FRAME_BYTES
  }

  /** A row sent five times by the first of two drains, which both rest. */
  ghost predicate SentOut(s: Shared, row: Row) {
    s.drains == map[0 := Idle, 1 := Idle] && SentTimes(s.tables, row, MAX_DELIVERY_ATTEMPTS)
    && Sends(s.tables.deliveries, row.id, true) == 0
  }

  /** Both drains have the row, sent five times already, ahead when it is acknowledged. */
  ghost predicate BothHold(s: Shared, row: Row) {
    && s.drains == map[0 := Ready([row], false), 1 := Ready([row], false)]
    && row.id in s.tables.sent && row.id !in s.tables.attempts
    && Sends(s.tables.deliveries, row.id, false) == MAX_DELIVERY_ATTEMPTS
    && Sends(s.tables.deliveries, row.id, true) == 0
  }

  lemma SentOutByTheFirst(row: Row) returns (moves: seq<Move>)
    requires Deliverable(row)
    ensures ValidMoves(Resting({0, 1}), moves) && SentOut(AfterMoves(Resting({0, 1}), moves), row)
  {
    var s := Resting({0, 1});
    var before := SentWithoutAnswer(row, MAX_DELIVERY_ATTEMPTS);
    assert As(s, 0) == Fresh();
    Alone(s, 0, before);
    moves := AllBy(0, before);
    RunKeepsInv(Fresh(), before);
    assert IdInv(After(Fresh(), before), row.id);
    assert AfterMoves(s, moves).drains == map[0 := Idle, 1 := Idle];
  }

  lemma BothPick(s: Shared, row: Row)
    requires SentOut(s, row) && row.id != ""
    ensures CanMove(s, By(0, BeginDrain(50, false)))
    ensures var s1 := Moved(s, By(0, BeginDrain(50, false)));
            && CanMove(s1, By(1, BeginDrain(50, false)))
            && var s2 := Moved(s1, By(1, BeginDrain(50, false)));
               && CanMove(s2, By(0, Event.Acknowledge(row.id, true)))
               && BothHold(Moved(s2, By(0, Event.Acknowledge(row.id, true))), row)
  {
    assert PendingRows(s.tables, s.tables.runs) == [row];
  }

  /** A drain that has the stored row ahead sends it. */
  lemma LateSend(w: World, row: Row)
    requires Deliverable(row) && w.pc == Ready([row], false) && row.id in w.sent
    requires Attempts(w, row.id) < MAX_DELIVERY_ATTEMPTS
    ensures ValidRun(w, [Take, Judge, Send(false)])
    ensures var t := After(w, [Take, Judge, Send(false)]);
            && t.pc == Ready([], false) && t.sent == w.sent && Attempts(t, row.id) == Attempts(w, row.id) + 1
            && Sends(t.deliveries, row.id, true) == Sends(w.deliveries, row.id, true) + 1
            && Sends(t.deliveries, row.id, false) == Sends(w.deliveries, row.id, false)
  {
    var w1 := Step(w, Take);
    assert w1.pc == Counted(row, Attempts(w, row.id) + 1, [], false);
    var w2 := Step(w1, Judge);
    assert w2.pc == Sending(row, [], false);
    SendsStep(w2, Send(false), row.id, true);
    SendsStep(w2, Send(false), row.id, false);
    Then(w2, Send(false), []);
    Then(w1, Judge, [Send(false)] + []);
    Then(w, Take, [Judge] + ([Send(false)] + []));
    assert [Take] + ([Judge] + ([Send(false)] + [])) == [Take, Judge, Send(false)];
  }

  lemma SendsItLate(s: Shared, moves: seq<Move>, d: nat, row: Row) returns (longer: seq<Move>)
    requires ValidMoves(s, moves) && Deliverable(row) && d in AfterMoves(s, moves).drains
    requires AfterMoves(s, moves).drains[d] == Ready([row], false) && row.id in AfterMoves(s, moves).tables.sent
    requires Attempts(AfterMoves(s, moves).tables, row.id) < MAX_DELIVERY_ATTEMPTS
    ensures ValidMoves(s, longer)
    ensures var t, u := AfterMoves(s, moves), AfterMoves(s, longer);
            && u.drains == t.drains[d := Ready([], false)] && row.id in u.tables.sent
            && Attempts(u.tables, row.id) == Attempts(t.tables, row.id) + 1
            && Sends(u.tables.deliveries, row.id, true) == Sends(t.tables.deliveries, row.id, true) + 1
            && Sends(u.tables.deliveries, row.id, false) == Sends(t.tables.deliveries, row.id, false)
  {
    var t := AfterMoves(s, moves);
    LateSend(As(t, d), row);
    Alone(t, d, [Take, Judge, Send(false)]);
    MovesConcat(s, moves, AllBy(d, [Take, Judge, Send(false)]));
    longer := moves + AllBy(d, [Take, Judge, Send(false)]);
  }

  /** With two drains seven sends are reached. */
  lemma SeventhSend(row: Row) returns (moves: seq<Move>)
    requires Deliverable(row)
    ensures ValidMoves(Resting({0, 1}), moves)
    ensures AllSends(AfterMoves(Resting({0, 1}), moves).tables, row.id) == MAX_DELIVERY_ATTEMPTS + 2
  {
    moves := SentOutByTheFirst(row);
    BothPick(AfterMoves(Resting({0, 1}), moves), row);
    moves := Goes(Resting({0, 1}), moves, By(0, BeginDrain(50, false)));
    moves := Goes(Resting({0, 1}), moves, By(1, BeginDrain(50, false)));
    moves := Goes(Resting({0, 1}), moves, By(0, Event.Acknowledge(row.id, true)));
    moves := SendsItLate(Resting({0, 1}), moves, 0, row);
    moves := SendsItLate(Resting({0, 1}), moves, 1, row);
  }
}
