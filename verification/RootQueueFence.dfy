/** Runs of the durable root queue, and the class that keeps it. */
module RootQueueFence {
  import opened Common
  import opened RootQueueModel
  import opened RootQueueEffects

  datatype Event =
    | Queue(id: RootId, review: bool, now: real)
    | Claim(contacts: seq<string>, worker: Worker, limit: nat, now: real)
    | Settle(id: RootId)

  function Bounded(limit: nat): nat {
    if limit > MAX_CLAIM_BATCH then MAX_CLAIM_BATCH else limit
  }

  ghost function Step(s: Store, e: Event): Store {
    match e
    case Queue(id, review, now) =>
      var r := Enqueue(s, id, review, now);
      if r.Raised? then s else r.store
    case Claim(contacts, worker, limit, now) =>
      s.(queues := ClaimReady(s.queues, contacts, worker, Bounded(limit), now).0)
    case Settle(id) => s.(queues := Acknowledge(s.queues, id))
  }

  ghost function Run(s: Store, events: seq<Event>): Store
    decreases |events|
  {
    if events == [] then s else Run(Step(s, events[0]), events[1..])
  }

  const EMPTY := Store(map[], 0)

  lemma StepKeepsInv(s: Store, e: Event)
    requires StoreInv(s)
    ensures StoreInv(Step(s, e))
  {
    match e
    case Queue(id, review, now) =>
      if Enqueue(s, id, review, now).Accepted? {
        EnqueueKeepsInv(s, id, review, now);
      }
    case Claim(contacts, worker, limit, now) => ClaimKeepsInv(s, contacts, worker, Bounded(limit), now);
    case Settle(id) => AcknowledgeKeepsInv(s, id);
  }

  lemma {:induction false} RunKeepsInv(s: Store, events: seq<Event>)
    requires StoreInv(s)
    ensures StoreInv(Run(s, events))
    decreases |events|
  {
    if events != [] {
      StepKeepsInv(s, events[0]);
      RunKeepsInv(Step(s, events[0]), events[1..]);
    }
  }

  /** Every reachable queue is bounded, free of duplicates, and holds one review at most. */
  lemma QueueBounds(events: seq<Event>, contact: string)
    ensures var s := Run(EMPTY, events);
            && Total(s.queues) <= MAX_QUEUED_ROOTS
            && |Backlog(s, contact)| <= MAX_QUEUED_ROOTS_PER_CONTACT
            && Reviews(Backlog(s, contact)) <= 1
            && forall i, j :: 0 <= i < j < |Backlog(s, contact)| ==> Backlog(s, contact)[i].id != Backlog(s, contact)[j].id
  {
    RunKeepsInv(EMPTY, events);
    var s := Run(EMPTY, events);
    if contact in s.queues {
      assert QueueInv(s, contact, s.queues[contact]);
    }
  }

  /** The caller's duty: it presents no claim, or the name of the queued root whose text it
      runs.  The run is worked out anew from that text and may be another one. */
  predicate Presents(id: RootId, claimed: Option<RootId>) {
    claimed.Some? ==> claimed.value.contact == id.contact && claimed.value.context == id.context
  }

  /** A caller that does its duty crosses as the head itself, or as its text in another run. */
  predicate CarriesItsText(id: RootId, claimed: Option<RootId>, head: RootId) {
    Presents(id, claimed) ==> head.contact == id.contact && head.context == id.context && (head.run == id.run ==> head == id)
  }

  /** A root is let through only past a backlog that was empty when it was read, or
      under the name of the oldest root queued for its contact when the head was read, and
      then it carries that root's own text; the queue may have moved on between the two
      readings. */
  lemma OnlyTheOldestCrosses(before: seq<Event>, between: seq<Event>, f: Fence, id: RootId, claimed: Option<RootId>,
                             owner: nat, pid: nat, now: real)
    requires LetThrough(Run(EMPTY, before), Run(Run(EMPTY, before), between), f, id, claimed, owner, pid, now)
    ensures var items := Backlog(Run(Run(EMPTY, before), between), id.contact);
            Backlog(Run(EMPTY, before), id.contact) == []
            || (items != [] && claimed == Some(items[0].id) && CarriesItsText(id, claimed, items[0].id)
                && forall i :: 0 < i < |items| ==> items[0].arrival < items[i].arrival)
  {
    RunKeepsInv(EMPTY, before);
    RunKeepsInv(Run(EMPTY, before), between);
    var s := Run(Run(EMPTY, before), between);
    if Backlog(s, id.contact) != [] {
      assert QueueInv(s, id.contact, s.queues[id.contact]);
    }
  }

  /** An event takes a root out: its own acknowledgement, or a newer review of the
      same contact replacing it. */
  predicate Removes(e: Event, id: RootId, review: bool) {
    || (e.Settle? && e.id == id)
    || (e.Queue? && e.review && review && e.id.contact == id.contact)
  }

  predicate Waits(s: Store, id: RootId, review: bool, arrival: nat) {
    exists i :: 0 <= i < |Backlog(s, id.contact)|
                && Backlog(s, id.contact)[i].id == id && Backlog(s, id.contact)[i].review == review
                && Backlog(s, id.contact)[i].arrival == arrival
  }

  lemma {:induction false} ClaimKeepsWaiting(s: Store, contacts: seq<string>, w: Worker, room: nat, now: real,
                                             id: RootId, review: bool, arrival: nat)
    requires Waits(s, id, review, arrival)
    ensures Waits(s.(queues := ClaimReady(s.queues, contacts, w, room, now).0), id, review, arrival)
    decreases |contacts|
  {
    if contacts != [] && room > 0 {
      if contacts[0] in s.queues && !w.busy(contacts[0]) && Claimable(s.queues[contacts[0]], w.alive, now) {
        var claimed := s.(queues := s.queues[contacts[0] := ClaimHead(s.queues[contacts[0]], w.owner, w.pid, now)]);
        var i :| 0 <= i < |Backlog(s, id.contact)| && Backlog(s, id.contact)[i].id == id
                 && Backlog(s, id.contact)[i].review == review && Backlog(s, id.contact)[i].arrival == arrival;
        assert Backlog(claimed, id.contact)[i].id == id;
        ClaimKeepsWaiting(claimed, contacts[1..], w, room - 1, now, id, review, arrival);
      } else {
        ClaimKeepsWaiting(s, contacts[1..], w, room, now, id, review, arrival);
      }
    }
  }

  lemma QueueKeepsWaiting(s: Store, e: Event, id: RootId, review: bool, arrival: nat)
    requires Waits(s, id, review, arrival) && e.Queue? && !Removes(e, id, review)
    ensures Waits(Step(s, e), id, review, arrival)
  {
    var items := Backlog(s, id.contact);
    var i :| 0 <= i < |items| && items[i].id == id && items[i].review == review && items[i].arrival == arrival;
    var out := Backlog(Step(s, e), id.contact);
    if e.id.contact == id.contact && Step(s, e) != s {
      if e.review {
        WithoutReviewsThins(items);
        assert items[i] in items;
        var k :| 0 <= k < |WithoutReviews(items)| && WithoutReviews(items)[k] == items[i];
        assert out[k] == items[i];
      } else {
        assert out[i] == items[i];
      }
    } else {
      assert out[i] == items[i];
    }
  }

  lemma SettleKeepsWaiting(s: Store, e: Event, id: RootId, review: bool, arrival: nat)
    requires Waits(s, id, review, arrival) && e.Settle? && !Removes(e, id, review)
    ensures Waits(Step(s, e), id, review, arrival)
  {
    var items := Backlog(s, id.contact);
    var i :| 0 <= i < |items| && items[i].id == id && items[i].review == review && items[i].arrival == arrival;
    assert items[i] in items;
    var left := Backlog(Step(s, e), id.contact);
    assert left == WithoutRoot(items, e.id) by { SettledBacklog(s, e, id.contact); }
    WithoutRootThins(items, e.id);
    assert items[i] in left;
  }

  lemma SettledBacklog(s: Store, e: Event, contact: string)
    requires e.Settle?
    ensures Backlog(Step(s, e), contact) == WithoutRoot(Backlog(s, contact), e.id)
  {
  }

  lemma {:induction false} RunKeepsWaiting(s: Store, events: seq<Event>, id: RootId, review: bool, arrival: nat)
    requires Waits(s, id, review, arrival) && forall e :: e in events ==> !Removes(e, id, review)
    ensures Waits(Run(s, events), id, review, arrival)
    decreases |events|
  {
    if events != [] {
      var e := events[0];
      assert e in events;
      match e {
        case Queue(_, _, _) => QueueKeepsWaiting(s, e, id, review, arrival);
        case Claim(contacts, worker, limit, now) =>
          ClaimKeepsWaiting(s, contacts, worker, Bounded(limit), now, id, review, arrival);
        case Settle(_) => SettleKeepsWaiting(s, e, id, review, arrival);
      }
      forall x | x in events[1..] ensures !Removes(x, id, review) {
        assert x in events;
      }
      RunKeepsWaiting(Step(s, e), events[1..], id, review, arrival);
    }
  }

  /** An accepted root stays queued until it is acknowledged, or is a review that a
      newer review replaces; and while it stays, no later root of its contact is the head. */
  lemma NoOvertaking(before: seq<Event>, after: seq<Event>, earlier: RootId, review: bool, arrival: nat,
                     later: RootId, laterArrival: nat, owner: nat, pid: nat, now: real)
    requires Waits(Run(EMPTY, before), earlier, review, arrival)
    requires later.contact == earlier.contact && arrival < laterArrival
    requires forall e :: e in after ==> !Removes(e, earlier, review)
    ensures var s := Run(Run(EMPTY, before), after);
            && Waits(s, earlier, review, arrival)
            && ((exists r :: Waits(s, later, r, laterArrival)) ==>
                  !IsClaimedHead(s, later.contact, Some(later), owner, pid, now))
  {
    RunKeepsInv(EMPTY, before);
    RunKeepsInv(Run(EMPTY, before), after);
    RunKeepsWaiting(Run(EMPTY, before), after, earlier, review, arrival);
    var s := Run(Run(EMPTY, before), after);
    assert QueueInv(s, earlier.contact, Backlog(s, earlier.contact));
  }

  /** The root heads its contact's queue under this claim. */
  predicate Leased(s: Store, id: RootId, review: bool, c: Claim) {
    var items := Backlog(s, id.contact);
    items != [] && items[0].id == id && items[0].review == review && items[0].claim == Some(c)
  }

  /** While an accepted root waits, whoever is let through for its contact crosses as the
      head, which was accepted no later; so no later root, and no root that was never
      queued, crosses before it. */
  lemma NoneCrossesBefore(before: seq<Event>, between: seq<Event>, earlier: RootId, review: bool, arrival: nat,
                          f: Fence, id: RootId, claimed: Option<RootId>, owner: nat, pid: nat, now: real)
    requires Waits(Run(EMPTY, before), earlier, review, arrival) && id.contact == earlier.contact
    requires forall e :: e in between ==> !Removes(e, earlier, review)
    requires LetThrough(Run(EMPTY, before), Run(Run(EMPTY, before), between), f, id, claimed, owner, pid, now)
    ensures var items := Backlog(Run(Run(EMPTY, before), between), id.contact);
            && items != [] && claimed == Some(items[0].id) && CarriesItsText(id, claimed, items[0].id)
            && items[0].arrival <= arrival && (items[0].arrival == arrival ==> items[0].id == earlier)
  {
    OnlyTheOldestCrosses(before, between, f, id, claimed, owner, pid, now);
    RunKeepsWaiting(Run(EMPTY, before), between, earlier, review, arrival);
  }

  /** The event does not take the root out, and a claim comes while the lease lasts and
      its process lives. */
  predicate Respects(e: Event, id: RootId, review: bool, c: Claim) {
    && !Removes(e, id, review)
    && (e.Claim? ==> e.now < c.until && e.worker.alive(c.pid))
  }

  lemma {:induction false} ClaimKeepsLease(s: Store, contacts: seq<string>, w: Worker, room: nat, now: real,
                                           id: RootId, review: bool, c: Claim)
    requires Leased(s, id, review, c) && now < c.until && w.alive(c.pid)
    ensures Leased(s.(queues := ClaimReady(s.queues, contacts, w, room, now).0), id, review, c)
    decreases |contacts|
  {
    if contacts != [] && room > 0 {
      if contacts[0] in s.queues && !w.busy(contacts[0]) && Claimable(s.queues[contacts[0]], w.alive, now) {
        var claimed := s.(queues := s.queues[contacts[0] := ClaimHead(s.queues[contacts[0]], w.owner, w.pid, now)]);
        ClaimKeepsLease(claimed, contacts[1..], w, room - 1, now, id, review, c);
      } else {
        ClaimKeepsLease(s, contacts[1..], w, room, now, id, review, c);
      }
    }
  }

  lemma QueueKeepsLease(s: Store, e: Event, id: RootId, review: bool, c: Claim)
    requires Leased(s, id, review, c) && e.Queue? && !Removes(e, id, review)
    ensures Leased(Step(s, e), id, review, c)
  {
  }

  lemma SettleKeepsLease(s: Store, e: Event, id: RootId, review: bool, c: Claim)
    requires Leased(s, id, review, c) && e.Settle? && !Removes(e, id, review)
    ensures Leased(Step(s, e), id, review, c)
  {
  }

  lemma {:induction false} RunKeepsLease(s: Store, events: seq<Event>, id: RootId, review: bool, c: Claim)
    requires Leased(s, id, review, c) && forall e :: e in events ==> Respects(e, id, review, c)
    ensures Leased(Run(s, events), id, review, c)
    decreases |events|
  {
    if events != [] {
      var e := events[0];
      assert e in events;
      match e {
        case Queue(_, _, _) => QueueKeepsLease(s, e, id, review, c);
        case Claim(contacts, worker, limit, now) =>
          ClaimKeepsLease(s, contacts, worker, Bounded(limit), now, id, review, c);
        case Settle(_) => SettleKeepsLease(s, e, id, review, c);
      }
      forall x | x in events[1..] ensures Respects(x, id, review, c) {
        assert x in events;
      }
      RunKeepsLease(Step(s, e), events[1..], id, review, c);
    }
  }

  /** A leased head is its holder's alone until the lease runs out, its process dies or
      the root leaves: over any run till then nobody else, and with no other root, may
      cross for the contact. */
  lemma HeadLeaseIsExclusive(s: Store, events: seq<Event>, id: RootId, review: bool, c: Claim,
                             crossing: Option<RootId>, owner: nat, pid: nat, now: real)
    requires Leased(s, id, review, c) && forall e :: e in events ==> Respects(e, id, review, c)
    requires IsClaimedHead(Run(s, events), id.contact, crossing, owner, pid, now)
    ensures crossing == Some(id) && owner == c.owner && pid == c.pid && now < c.until
  {
    RunKeepsLease(s, events, id, review, c);
  }

  lemma RestUnrepeated(contacts: seq<string>)
    requires Unrepeated(contacts) && contacts != []
    ensures Unrepeated(contacts[1..]) && contacts[0] !in contacts[1..]
    ensures forall c :: c in contacts <==> c == contacts[0] || c in contacts[1..]
  {
    assert forall i :: 0 <= i < |contacts[1..]| ==> contacts[1..][i] == contacts[i + 1];
  }

  predicate Takes(queues: Queues, contact: string, w: Worker, now: real) {
    contact in queues && !w.busy(contact) && Claimable(queues[contact], w.alive, now)
  }

  /** A claim leaves alone every contact that is busy, not asked for, or whose head
      another live process holds. */
  lemma {:induction false} ClaimLeavesOthers(queues: Queues, contacts: seq<string>, w: Worker, room: nat, now: real,
                                             contact: string)
    requires Unrepeated(contacts) && contact in queues
    requires contact !in contacts || !Takes(queues, contact, w, now)
    ensures var r := ClaimReady(queues, contacts, w, room, now);
            contact in r.0 && r.0[contact] == queues[contact] && |r.1| <= room
    decreases |contacts|
  {
    if contacts != [] && room > 0 {
      RestUnrepeated(contacts);
      var first := contacts[0];
      if Takes(queues, first, w, now) {
        var claimed := queues[first := ClaimHead(queues[first], w.owner, w.pid, now)];
        ClaimLeavesOthers(claimed, contacts[1..], w, room - 1, now, contact);
      } else {
        ClaimLeavesOthers(queues, contacts[1..], w, room, now, contact);
      }
    }
  }

  /** Every claimed root is the leased head of its idle contact, for the worker that
      claimed it. */
  lemma {:induction false} ClaimsAreHeads(queues: Queues, contacts: seq<string>, w: Worker, room: nat, now: real,
                                          id: RootId, nextArrival: nat)
    requires Unrepeated(contacts)
    requires forall contact :: contact in queues && queues[contact] != [] ==> queues[contact][0].id.contact == contact
    requires id in ClaimReady(queues, contacts, w, room, now).1
    ensures id.contact in contacts && Takes(queues, id.contact, w, now)
    ensures IsClaimedHead(Store(ClaimReady(queues, contacts, w, room, now).0, nextArrival), id.contact, Some(id),
                          w.owner, w.pid, now)
    decreases |contacts|
  {
    RestUnrepeated(contacts);
    var first := contacts[0];
    if Takes(queues, first, w, now) {
      var head := ClaimHead(queues[first], w.owner, w.pid, now);
      var claimed := queues[first := head];
      if id == queues[first][0].id {
        ClaimLeavesOthers(claimed, contacts[1..], w, room - 1, now, first);
      } else {
        ClaimsAreHeads(claimed, contacts[1..], w, room - 1, now, id, nextArrival);
      }
    } else {
      ClaimsAreHeads(queues, contacts[1..], w, room, now, id, nextArrival);
    }
  }

  /** A root that was accepted waits in its contact's queue. */
  lemma QueuedWaits(s: Store, t: Store, raised: bool, id: RootId, review: bool, now: real)
    requires RootQueued(s, t, raised, id, review, now)
    ensures !raised ==> WaitsIn(Backlog(t, id.contact), id)
    ensures raised ==> t == s
  {
    if !WaitsIn(Backlog(s, id.contact), id) && !raised {
      var kept :| KeptFor(Backlog(s, id.contact), kept, review)
                  && t == Store(s.queues[id.contact := kept + [Item(id, review, now, None, s.nextArrival)]], s.nextArrival + 1);
      assert Backlog(t, id.contact)[|kept|].id == id;
      assert Backlog(t, id.contact)[|kept|] in Backlog(t, id.contact);
    }
  }

  /** The contact whose oldest root is oldest of all. */
  method Earliest(queues: Queues, left: set<string>) returns (first: string)
    requires left != {}
    ensures first in left && forall contact :: contact in left ==> HeadDate(queues, first) <= HeadDate(queues, contact)
  {
    first :| first in left;
    var rest := left - {first};
    while rest != {}
      invariant rest <= left && first in left
      invariant forall contact :: contact in left && contact !in rest ==>
        HeadDate(queues, first) <= HeadDate(queues, contact)
      decreases |rest|
    {
      var contact :| contact in rest;
      if HeadDate(queues, contact) < HeadDate(queues, first) {
        first := contact;
      }
      rest := rest - {contact};
    }
  }

  method ContactsInOrder(queues: Queues) returns (contacts: seq<string>)
    ensures Unrepeated(contacts) && InOrder(queues, contacts)
    ensures forall contact :: contact in contacts <==> contact in queues
  {
    contacts := [];
    var left := queues.Keys;
    while left != {}
      invariant left <= queues.Keys && Unrepeated(contacts) && InOrder(queues, contacts)
      invariant forall contact :: contact in contacts <==> contact in queues && contact !in left
      invariant forall i, contact :: 0 <= i < |contacts| && contact in left ==>
        HeadDate(queues, contacts[i]) <= HeadDate(queues, contact)
      decreases |left|
    {
      var contact := Earliest(queues, left);
      assert forall i :: 0 <= i < |contacts| ==> contacts[i] in contacts;
      contacts := contacts + [contact];
      left := left - {contact};
    }
  }

  // ------------------------------------------------------------------- the queue

  class LongTaskQueue {
    var queues: Queues
    var nextArrival: nat

    ghost function State(): Store
      reads this
    {
      Store(queues, nextArrival)
    }

    constructor ()
      ensures State() == EMPTY
    {
      queues, nextArrival := map[], 0;
    }

    static method CountAll(queues: Queues) returns (total: nat)
      ensures total == Total(queues)
    {
      total := 0;
      var left := queues;
      while left != map[]
        invariant total + Total(left) == Total(queues)
        decreases |left|
      {
        var contact :| contact in left;
        TotalRemove(left, contact);
        Smaller(left, contact);
        total := total + |left[contact]|;
        left := left - {contact};
      }
    }

    static method DropReviews(items: seq<Item>) returns (kept: seq<Item>)
      ensures kept == WithoutReviews(items)
    {
      kept := [];
      var i := |items|;
      while i > 0
        invariant 0 <= i <= |items|
        invariant kept == WithoutReviews(items[i..])
      {
        i := i - 1;
        assert items[i..][1..] == items[i + 1..];
        if !items[i].review {
          kept := [items[i]] + kept;
        }
      }
    }

    method QueueRoot(id: RootId, review: bool, now: real) returns (raised: bool)
      modifies this
      ensures raised <==> Enqueue(old(State()), id, review, now).Raised?
      ensures State() == Step(old(State()), Event.Queue(id, review, now))
      ensures RootQueued(old(State()), State(), raised, id, review, now)
    {
      QueueingQueues(State(), id, review, now);
      var items := if id.contact in queues then queues[id.contact] else [];
      if exists i :: 0 <= i < |items| && items[i].id == id {
        return false;
      }
      var kept := items;
      if review {
        kept := DropReviews(items);
      }
      var total := CountAll(queues[id.contact := kept]);
      if |kept| >= MAX_QUEUED_ROOTS_PER_CONTACT || total >= MAX_QUEUED_ROOTS {
        return true;
      }
      queues := queues[id.contact := kept + [Item(id, review, now, None, nextArrival)]];
      nextArrival := nextArrival + 1;
      return false;
    }

    /** `queue_long_task_root_if_blocked`: whether a root has to wait, and if so, queueing it;
        `review` says whether its text is a periodic review. */
    method QueueIfBlocked(f: Fence, id: RootId, review: bool, claimed: Option<RootId>, owner: nat, pid: nat, now: real)
      returns (blocked: bool, raised: bool)
      modifies this
      ensures blocked <==>
        || (f.active && id.run != f.run && (f.pendingReply || f.settleRequested || f.terminal))
        || (!NobodyWaits(old(State()), id.contact)
            && !HoldsTheHead(old(State()), id.contact, claimed, owner, pid, now))
      ensures !blocked ==> !raised && State() == old(State())
      ensures blocked ==> RootQueued(old(State()), State(), raised, id, review, now)
      ensures blocked && !raised ==> WaitsIn(Backlog(State(), id.contact), id)
      ensures raised ==> State() == old(State())
    {
      blocked := f.active && id.run != f.run && (f.pendingReply || f.settleRequested || f.terminal);
      var items := if id.contact in queues then queues[id.contact] else [];
      var behind := items != [];
      if behind && claimed.Some? && items[0].id == claimed.value && items[0].claim.Some?
         && items[0].claim.value.owner == owner && items[0].claim.value.pid == pid && items[0].claim.value.until > now {
        behind := false;
      }
      blocked := blocked || behind;
      raised := false;
      if blocked {
        raised := QueueRoot(id, review, now);
        QueuedWaits(old(State()), State(), raised, id, review, now);
      }
    }

    /** Claiming over all contacts, those with the oldest heads first. */
    method ClaimOldestReady(worker: Worker, limit: nat, now: real) returns (claimed: seq<RootId>, contacts: seq<string>)
      modifies this
      ensures Unrepeated(contacts) && InOrder(old(queues), contacts)
      ensures forall contact :: contact in contacts <==> contact in old(queues)
      ensures HeadsClaimed(old(queues), queues, contacts, worker, if limit < 64 then limit else 64, now, claimed)
    {
      contacts := ContactsInOrder(queues);
      claimed := ClaimReadyRoots(contacts, worker, limit, now);
    }

    method ClaimReadyRoots(contacts: seq<string>, worker: Worker, limit: nat, now: real)
      returns (claimed: seq<RootId>)
      modifies this
      ensures State() == Step(old(State()), Event.Claim(contacts, worker, limit, now))
      ensures claimed == ClaimReady(old(queues), contacts, worker, Bounded(limit), now).1
      ensures nextArrival == old(nextArrival)
      ensures Unrepeated(contacts) ==>
        HeadsClaimed(old(queues), queues, contacts, worker, if limit < 64 then limit else 64, now, claimed)
    {
      if Unrepeated(contacts) {
        ClaimingClaims(queues, contacts, worker, Bounded(limit), now);
      }
      claimed := [];
      var room := Bounded(limit);
      var i := 0;
      assert contacts[0..] == contacts;
      while i < |contacts| && room > 0
        invariant 0 <= i <= |contacts| && nextArrival == old(nextArrival)
        invariant ClaimReady(old(queues), contacts, worker, Bounded(limit), now).0
               == ClaimReady(queues, contacts[i..], worker, room, now).0
        invariant ClaimReady(old(queues), contacts, worker, Bounded(limit), now).1
               == claimed + ClaimReady(queues, contacts[i..], worker, room, now).1
      {
        var contact := contacts[i];
        assert contacts[i..][1..] == contacts[i + 1..];
        if contact in queues && !worker.busy(contact) && Claimable(queues[contact], worker.alive, now) {
          var items := queues[contact];
          ghost var rest := ClaimReady(queues[contact := ClaimHead(items, worker.owner, worker.pid, now)],
                                       contacts[i + 1..], worker, room - 1, now).1;
          assert claimed + ([items[0].id] + rest) == (claimed + [items[0].id]) + rest;
          queues := queues[contact := ClaimHead(items, worker.owner, worker.pid, now)];
          claimed := claimed + [items[0].id];
          room := room - 1;
        }
        i := i + 1;
      }
      assert claimed + [] == claimed;
    }

    method AcknowledgeRoot(id: RootId)
      modifies this
      ensures State() == Step(old(State()), Settle(id))
      ensures RootRemoved(old(queues), queues, id) && nextArrival == old(nextArrival)
    {
      AcknowledgingRemoves(queues, id);
      var left := queues.Keys;
      var out: Queues := map[];
      while left != {}
        invariant left <= queues.Keys && queues == old(queues) && nextArrival == old(nextArrival)
        invariant forall contact :: contact in out <==>
          contact in queues && contact !in left && WithoutRoot(queues[contact], id) != []
        invariant forall contact :: contact in out ==> out[contact] == WithoutRoot(queues[contact], id)
        decreases |left|
      {
        var contact :| contact in left;
        var remaining := WithoutRoot(queues[contact], id);
        if remaining != [] {
          out := out[contact := remaining];
        }
        left := left - {contact};
      }
      assert out == Acknowledge(queues, id);
      queues := out;
    }
  }
}
