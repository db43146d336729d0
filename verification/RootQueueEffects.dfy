/** What the operations of the durable root queue promise, said of the queues before and
    after: who is let through, what is queued, claimed and removed, and nothing else. */
module RootQueueEffects {
  import opened Common
  import opened RootQueueModel

  // -------------------------------------------------------------------- the fence

  /** Another run's terminal delivery is under way. */
  predicate Fenced(f: Fence, run: string) {
    f.active && run != f.run && (f.pendingReply || f.settleRequested || f.terminal)
  }

  predicate NobodyWaits(s: Store, contact: string) {
    contact !in s.queues || s.queues[contact] == []
  }

  /** The claim presented names the oldest root queued for the contact, and that root is
      leased to this very process and the lease has not run out. */
  predicate HoldsTheHead(s: Store, contact: string, claimed: Option<RootId>, owner: nat, pid: nat, now: real) {
    && contact in s.queues && s.queues[contact] != [] && claimed == Some(s.queues[contact][0].id)
    && s.queues[contact][0].claim.Some?
    && var claim := s.queues[contact][0].claim.value; claim.owner == owner && claim.pid == pid && now < claim.until
  }

  /** A root is let through exactly when no other run's terminal delivery is under way and
      either nobody waits for its contact or it crosses as the live leased head. */
  lemma CrossesExactlyWhen(atBacklog: Store, atHead: Store, f: Fence, id: RootId, claimed: Option<RootId>,
                           owner: nat, pid: nat, now: real)
    ensures LetThrough(atBacklog, atHead, f, id, claimed, owner, pid, now)
            <==> !Fenced(f, id.run)
                 && (NobodyWaits(atBacklog, id.contact) || HoldsTheHead(atHead, id.contact, claimed, owner, pid, now))
  {
  }

  /** Whatever the queue holds and whatever claim is presented, nothing crosses while another
      run's terminal delivery is under way. */
  lemma NothingCrossesTheLifecycle(atBacklog: Store, atHead: Store, f: Fence, id: RootId, claimed: Option<RootId>,
                                   owner: nat, pid: nat, now: real)
    requires f.active && id.run != f.run && (f.pendingReply || f.settleRequested || f.terminal)
    ensures !LetThrough(atBacklog, atHead, f, id, claimed, owner, pid, now)
  {
    CrossesExactlyWhen(atBacklog, atHead, f, id, claimed, owner, pid, now);
  }

  // --------------------------------------------------------------------- queueing

  predicate WaitsIn(items: seq<Item>, id: RootId) {
    exists item :: item in items && item.id == id
  }

  /** What a new root is queued behind: everything, or, for a periodic review, everything but
      the reviews before it, in the same order. */
  ghost predicate KeptFor(items: seq<Item>, kept: seq<Item>, review: bool) {
    if review then
      && (forall item :: item in kept <==> item in items && !item.review)
      && forall i, j :: 0 <= i < j < |kept| ==> Before(items, kept[i], kept[j])
    else kept == items
  }

  ghost predicate NoRoom(s: Store, contact: string, kept: seq<Item>) {
    |kept| >= 16 || Total(s.queues[contact := kept]) >= 128
  }

  /** Queueing a root: known ones are left alone, a full queue refuses and writes nothing, and
      otherwise the root waits last in its contact's queue, the other contacts' queues as they
      were. */
  ghost predicate RootQueued(s: Store, t: Store, raised: bool, id: RootId, review: bool, now: real) {
    if WaitsIn(Backlog(s, id.contact), id) then !raised && t == s
    else exists kept ::
      && KeptFor(Backlog(s, id.contact), kept, review) && raised == NoRoom(s, id.contact, kept)
      && t == if raised then s
              else Store(s.queues[id.contact := kept + [Item(id, review, now, None, s.nextArrival)]], s.nextArrival + 1)
  }

  lemma QueueingQueues(s: Store, id: RootId, review: bool, now: real)
    ensures var r := Enqueue(s, id, review, now);
            RootQueued(s, if r.Raised? then s else r.store, r.Raised?, id, review, now)
  {
    var items := Backlog(s, id.contact);
    if Holds(items, id) {
      var i :| 0 <= i < |items| && items[i].id == id;
      assert items[i] in items;
    } else {
      var kept := if review then WithoutReviews(items) else items;
      KeepingKeeps(items, review);
      assert KeptFor(items, kept, review);
    }
  }

  lemma {:induction false} NoReviewsLeft(items: seq<Item>)
    ensures forall item :: item in WithoutReviews(items) ==> !item.review
  {
    if items != [] {
      NoReviewsLeft(items[1..]);
    }
  }

  lemma KeepingKeeps(items: seq<Item>, review: bool)
    ensures KeptFor(items, if review then WithoutReviews(items) else items, review)
  {
    WithoutReviewsThins(items);
    NoReviewsLeft(items);
  }

  // --------------------------------------------------------------------- removing

  /** Exactly the root's items go, from every queue; the rest stays in order, and a queue left
      empty disappears. */
  ghost predicate RootRemoved(before: Queues, after: Queues, id: RootId) {
    && (forall contact :: contact in after ==> contact in before && after[contact] != [])
    && forall contact :: contact in before ==>
         var left := if contact in after then after[contact] else [];
         && (forall item :: item in left <==> item in before[contact] && item.id != id)
         && forall i, j :: 0 <= i < j < |left| ==> Before(before[contact], left[i], left[j])
  }

  lemma AcknowledgingRemoves(queues: Queues, id: RootId)
    ensures RootRemoved(queues, Acknowledge(queues, id), id)
  {
    var after := Acknowledge(queues, id);
    forall contact | contact in queues
      ensures var left := if contact in after then after[contact] else [];
              left == WithoutRoot(queues[contact], id)
      ensures forall item :: item in WithoutRoot(queues[contact], id) <==> item in queues[contact] && item.id != id
      ensures Thinned(WithoutRoot(queues[contact], id), queues[contact])
    {
      WithoutRootThins(queues[contact], id);
    }
  }

  // --------------------------------------------------------------------- claiming

  ghost predicate Unrepeated(contacts: seq<string>) {
    forall i, j :: 0 <= i < j < |contacts| ==> contacts[i] != contacts[j]
  }

  /** The contact's oldest root is there for the taking: the contact is idle, and nobody, or
      nobody alive and in time, holds the root. */
  predicate Takeable(queues: Queues, contact: string, w: Worker, now: real) {
    && contact in queues && queues[contact] != [] && !w.busy(contact)
    && (queues[contact][0].claim.None?
        || queues[contact][0].claim.value.until <= now || !w.alive(queues[contact][0].claim.value.pid))
  }

  /** How many of the first `n` contacts could be taken from. */
  function TakeableBefore(queues: Queues, contacts: seq<string>, w: Worker, now: real, n: nat): nat
    requires n <= |contacts|
  {
    if n == 0 then 0
    else TakeableBefore(queues, contacts, w, now, n - 1) + (if Takeable(queues, contacts[n - 1], w, now) then 1 else 0)
  }

  /** Whether the claim reaches the i-th contact. */
  predicate Reached(queues: Queues, contacts: seq<string>, w: Worker, room: nat, now: real, i: nat)
    requires i < |contacts|
  {
    Takeable(queues, contacts[i], w, now) && TakeableBefore(queues, contacts, w, now, i) < room
  }

  predicate ClaimedFor(before: seq<Item>, after: seq<Item>, w: Worker, now: real) {
    && before != [] && |after| == |before| && after[1..] == before[1..]
    && after[0] == before[0].(claim := Some(Claim(w.owner, w.pid, now + 60.0)))
  }

  /** The i-th contact: claimed in its turn if the claim reaches it, and left alone if not. */
  ghost predicate Served(before: Queues, after: Queues, contacts: seq<string>, w: Worker, room: nat, now: real,
                         claimed: seq<RootId>, i: nat)
    requires i < |contacts| && after.Keys == before.Keys
  {
    if Reached(before, contacts, w, room, now, i) then
      var n := TakeableBefore(before, contacts, w, now, i);
      && ClaimedFor(before[contacts[i]], after[contacts[i]], w, now)
      && n < |claimed| && claimed[n] == before[contacts[i]][0].id
    else contacts[i] in before ==> after[contacts[i]] == before[contacts[i]]
  }

  /** Exactly the takeable contacts are claimed, first come first served up to the room there
      is, each with its oldest root for this worker for a minute; nothing else changes. */
  ghost predicate HeadsClaimed(before: Queues, after: Queues, contacts: seq<string>, w: Worker, room: nat, now: real,
                               claimed: seq<RootId>) {
    && after.Keys == before.Keys
    && (forall contact :: contact in before && contact !in contacts ==> after[contact] == before[contact])
    && |claimed| == Least(room, TakeableBefore(before, contacts, w, now, |contacts|))
    && forall i :: 0 <= i < |contacts| ==> Served(before, after, contacts, w, room, now, claimed, i)
  }

  function Least(a: nat, b: nat): nat {
    if a < b then a else b
  }

  /** Taking the first contact off the list, with what was claimed for it. */
  lemma {:induction false} CountsShift(before: Queues, mid: Queues, contacts: seq<string>, w: Worker, now: real, n: nat)
    requires contacts != [] && n < |contacts| && Unrepeated(contacts)
    requires forall contact :: contact != contacts[0] ==>
               (contact in mid <==> contact in before) && (contact in before ==> mid[contact] == before[contact])
    ensures TakeableBefore(before, contacts, w, now, n + 1)
         == (if Takeable(before, contacts[0], w, now) then 1 else 0) + TakeableBefore(mid, contacts[1..], w, now, n)
  {
    if n == 0 {
      assert TakeableBefore(before, contacts, w, now, 1)
          == TakeableBefore(before, contacts, w, now, 0) + (if Takeable(before, contacts[0], w, now) then 1 else 0);
    } else {
      CountsShift(before, mid, contacts, w, now, n - 1);
      assert contacts[1..][n - 1] == contacts[n] && contacts[n] != contacts[0];
    }
  }

  lemma TakeableIsClaimable(queues: Queues, contact: string, w: Worker, now: real)
    ensures Takeable(queues, contact, w, now)
            <==> contact in queues && !w.busy(contact) && Claimable(queues[contact], w.alive, now)
  {
  }

  lemma {:induction false} ClaimingClaims(queues: Queues, contacts: seq<string>, w: Worker, room: nat, now: real)
    requires Unrepeated(contacts)
    ensures var r := ClaimReady(queues, contacts, w, room, now);
            HeadsClaimed(queues, r.0, contacts, w, room, now, r.1)
    decreases |contacts|
  {
    if contacts == [] || room == 0 {
      NothingReached(queues, contacts, w, room, now);
    } else {
      TakeableIsClaimable(queues, contacts[0], w, now);
      assert forall i :: 0 <= i < |contacts[1..]| ==> contacts[1..][i] == contacts[i + 1];
      if Takeable(queues, contacts[0], w, now) {
        var mid := queues[contacts[0] := ClaimHead(queues[contacts[0]], w.owner, w.pid, now)];
        ClaimingClaims(mid, contacts[1..], w, room - 1, now);
        FirstClaimed(queues, mid, contacts, w, room, now);
      } else {
        ClaimingClaims(queues, contacts[1..], w, room, now);
        FirstPassed(queues, contacts, w, room, now);
      }
    }
  }

  lemma NothingReached(queues: Queues, contacts: seq<string>, w: Worker, room: nat, now: real)
    requires contacts == [] || room == 0
    ensures HeadsClaimed(queues, queues, contacts, w, room, now, [])
  {
  }

  lemma FirstClaimed(queues: Queues, mid: Queues, contacts: seq<string>, w: Worker, room: nat, now: real)
    requires Unrepeated(contacts) && contacts != [] && room > 0 && Takeable(queues, contacts[0], w, now)
    requires mid == queues[contacts[0] := ClaimHead(queues[contacts[0]], w.owner, w.pid, now)]
    requires var rest := ClaimReady(mid, contacts[1..], w, room - 1, now);
             HeadsClaimed(mid, rest.0, contacts[1..], w, room - 1, now, rest.1)
    ensures var rest := ClaimReady(mid, contacts[1..], w, room - 1, now);
            HeadsClaimed(queues, rest.0, contacts, w, room, now, [queues[contacts[0]][0].id] + rest.1)
  {
    var rest := ClaimReady(mid, contacts[1..], w, room - 1, now);
    var claimed := [queues[contacts[0]][0].id] + rest.1;
    CountsShift(queues, mid, contacts, w, now, |contacts| - 1);
    assert contacts[0] !in contacts[1..];
    forall i | 0 <= i < |contacts| ensures Served(queues, rest.0, contacts, w, room, now, claimed, i) {
      if i > 0 {
        LaterServed(queues, mid, contacts, w, room, now, rest.0, rest.1, i);
      }
    }
  }

  /** A later contact is served as it is from the rest of the list. */
  lemma LaterServed(queues: Queues, mid: Queues, contacts: seq<string>, w: Worker, room: nat, now: real, after: Queues,
                    claimed: seq<RootId>, i: nat)
    requires Unrepeated(contacts) && 0 < i < |contacts| && room > 0 && Takeable(queues, contacts[0], w, now)
    requires mid == queues[contacts[0] := ClaimHead(queues[contacts[0]], w.owner, w.pid, now)]
    requires after.Keys == mid.Keys && Served(mid, after, contacts[1..], w, room - 1, now, claimed, i - 1)
    ensures after.Keys == queues.Keys
    ensures Served(queues, after, contacts, w, room, now, [queues[contacts[0]][0].id] + claimed, i)
  {
    CountsShift(queues, mid, contacts, w, now, i - 1);
    assert contacts[1..][i - 1] == contacts[i] && contacts[i] != contacts[0];
  }

  lemma FirstPassed(queues: Queues, contacts: seq<string>, w: Worker, room: nat, now: real)
    requires Unrepeated(contacts) && contacts != [] && room > 0 && !Takeable(queues, contacts[0], w, now)
    requires var rest := ClaimReady(queues, contacts[1..], w, room, now);
             HeadsClaimed(queues, rest.0, contacts[1..], w, room, now, rest.1)
    ensures var rest := ClaimReady(queues, contacts[1..], w, room, now);
            HeadsClaimed(queues, rest.0, contacts, w, room, now, rest.1)
  {
    var rest := ClaimReady(queues, contacts[1..], w, room, now);
    CountsShift(queues, queues, contacts, w, now, |contacts| - 1);
    assert contacts[0] !in contacts[1..];
    forall i | 0 <= i < |contacts| ensures Served(queues, rest.0, contacts, w, room, now, rest.1, i) {
      if i > 0 {
        CountsShift(queues, queues, contacts, w, now, i - 1);
        assert contacts[1..][i - 1] == contacts[i];
        assert Served(queues, rest.0, contacts[1..], w, room, now, rest.1, i - 1);
      }
    }
  }

  /** The contacts in the order of their oldest roots. */
  predicate InOrder(queues: Queues, contacts: seq<string>) {
    forall i, j :: 0 <= i < j < |contacts| ==> HeadDate(queues, contacts[i]) <= HeadDate(queues, contacts[j])
  }

  function HeadDate(queues: Queues, contact: string): real {
    if contact in queues && queues[contact] != [] then queues[contact][0].createdAt else 0.0
  }

  lemma {:induction false} CountsGrow(queues: Queues, contacts: seq<string>, w: Worker, now: real, i: nat, j: nat)
    requires i < j <= |contacts|
    ensures TakeableBefore(queues, contacts, w, now, i) + (if Takeable(queues, contacts[i], w, now) then 1 else 0)
            <= TakeableBefore(queues, contacts, w, now, j)
  {
    if i + 1 < j {
      CountsGrow(queues, contacts, w, now, i, j - 1);
    }
  }

  /** With the contacts in order, whoever is left waiting though takeable waits behind older
      heads only. */
  lemma OldestServedFirst(queues: Queues, contacts: seq<string>, w: Worker, room: nat, now: real, i: nat, j: nat)
    requires InOrder(queues, contacts) && i < |contacts| && j < |contacts|
    requires Reached(queues, contacts, w, room, now, i)
    requires Takeable(queues, contacts[j], w, now) && !Reached(queues, contacts, w, room, now, j)
    ensures HeadDate(queues, contacts[i]) <= HeadDate(queues, contacts[j])
  {
    if j < i {
      CountsGrow(queues, contacts, w, now, j, i);
    }
  }
}
