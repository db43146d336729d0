/** The durable per-contact queue behind the long-task fence
    (`core/long_task_updates.py`): bounded, first in first out, crossed only with an
    empty backlog or as its leased head. */
module RootQueueModel {
  import opened Common

  const MAX_QUEUED_ROOTS := 128
  const MAX_QUEUED_ROOTS_PER_CONTACT := 16
  const QUEUED_ROOT_LEASE_SECONDS := 60.0
  const MAX_CLAIM_BATCH := 64

  /** `_queued_root_id` hashes these three together. */
  datatype RootId = RootId(contact: string, run: string, context: string)

  /** The process holding a claim: its token, its pid, and when the claim lapses. */
  datatype Claim = Claim(owner: nat, pid: nat, until: real)

  /** `arrival` numbers accepted roots in the order they were queued. */
  datatype Item = Item(id: RootId, review: bool, createdAt: real, claim: Option<Claim>, arrival: nat)

  type Queues = map<string, seq<Item>>

  datatype Store = Store(queues: Queues, nextArrival: nat)

  function Backlog(s: Store, contact: string): seq<Item> {
    if contact in s.queues then s.queues[contact] else []
  }

  /** All queued roots. */
  ghost function Total(queues: Queues): nat {
    if queues == map[] then 0
    else
      var contact :| contact in queues;
      |queues[contact]| + Total(queues - {contact})
  }

  predicate Holds(items: seq<Item>, id: RootId) {
    exists i :: 0 <= i < |items| && items[i].id == id
  }

  /** Everything that is not a periodic review. */
  function WithoutReviews(items: seq<Item>): seq<Item> {
    if items == [] then []
    else (if items[0].review then [] else [items[0]]) + WithoutReviews(items[1..])
  }

  function WithoutRoot(items: seq<Item>, id: RootId): seq<Item> {
    if items == [] then []
    else (if items[0].id == id then [] else [items[0]]) + WithoutRoot(items[1..], id)
  }

  // ---------------------------------------------------------------- operations

  datatype Queued = Raised | Accepted(store: Store)

  /** Queueing a blocked root: known roots are kept as they are, a review replaces
      older reviews, and a full queue raises without writing. */
  ghost function Enqueue(s: Store, id: RootId, review: bool, now: real): Queued {
    var items := Backlog(s, id.contact);
    if Holds(items, id) then Accepted(s)
    else
      var kept := if review then WithoutReviews(items) else items;
      if |kept| >= MAX_QUEUED_ROOTS_PER_CONTACT || Total(s.queues[id.contact := kept]) >= MAX_QUEUED_ROOTS then Raised
      else
        Accepted(Store(s.queues[id.contact := kept + [Item(id, review, now, None, s.nextArrival)]], s.nextArrival + 1))
  }

  /** The lifecycle side of the fence, in memory or on file. */
  datatype Fence = Fence(active: bool, run: string, pendingReply: bool, settleRequested: bool, terminal: bool)

  predicate LifecycleBlocks(f: Fence, run: string) {
    f.active && run != f.run && (f.pendingReply || f.settleRequested || f.terminal)
  }

  /** `_is_claimed_queue_head` for one process. */
  predicate IsClaimedHead(s: Store, contact: string, root: Option<RootId>, owner: nat, pid: nat, now: real) {
    var items := Backlog(s, contact);
    && root.Some? && items != [] && items[0].id == root.value
    && items[0].claim.Some? && items[0].claim.value.owner == owner && items[0].claim.value.pid == pid
    && items[0].claim.value.until > now
  }

  /** Whether a root is let through; the backlog and the head are read separately. */
  predicate LetThrough(atBacklog: Store, atHead: Store, f: Fence, id: RootId, claimed: Option<RootId>,
                       owner: nat, pid: nat, now: real) {
    && !LifecycleBlocks(f, id.run)
    && (Backlog(atBacklog, id.contact) == [] || IsClaimedHead(atHead, id.contact, claimed, owner, pid, now))
  }

  predicate Claimable(items: seq<Item>, alive: nat -> bool, now: real) {
    && items != []
    && !(items[0].claim.Some? && items[0].claim.value.until > now && alive(items[0].claim.value.pid))
  }

  function ClaimHead(items: seq<Item>, owner: nat, pid: nat, now: real): seq<Item>
    requires items != []
  {
    items[0 := items[0].(claim := Some(Claim(owner, pid, now + QUEUED_ROOT_LEASE_SECONDS)))]
  }

  datatype Worker = Worker(owner: nat, pid: nat, alive: nat -> bool, busy: string -> bool)

  /** The claiming loop of `claim_ready_long_task_roots` over contacts in the order of
      their heads; `room` is what is left of the limit. */
  function ClaimReady(queues: Queues, contacts: seq<string>, w: Worker, room: nat, now: real): (Queues, seq<RootId>) {
    if contacts == [] || room == 0 then (queues, [])
    else if contacts[0] in queues && !w.busy(contacts[0]) && Claimable(queues[contacts[0]], w.alive, now) then
      var claimed := queues[contacts[0] := ClaimHead(queues[contacts[0]], w.owner, w.pid, now)];
      var rest := ClaimReady(claimed, contacts[1..], w, room - 1, now);
      (rest.0, [queues[contacts[0]][0].id] + rest.1)
    else ClaimReady(queues, contacts[1..], w, room, now)
  }

  function Acknowledge(queues: Queues, id: RootId): Queues {
    map contact | contact in queues && WithoutRoot(queues[contact], id) != [] :: WithoutRoot(queues[contact], id)
  }

  // ------------------------------------------------------------------ invariant

  function Reviews(items: seq<Item>): nat {
    if items == [] then 0 else (if items[0].review then 1 else 0) + Reviews(items[1..])
  }

  ghost predicate QueueInv(s: Store, contact: string, items: seq<Item>) {
    && |items| <= MAX_QUEUED_ROOTS_PER_CONTACT && Reviews(items) <= 1
    && (forall i, j :: 0 <= i < j < |items| ==> items[i].id != items[j].id && items[i].arrival < items[j].arrival)
    && (forall i :: 0 <= i < |items| ==> items[i].id.contact == contact && items[i].arrival < s.nextArrival)
    && (forall i :: 0 < i < |items| ==> items[i].claim == None)
  }

  ghost predicate StoreInv(s: Store) {
    && Total(s.queues) <= MAX_QUEUED_ROOTS
    && forall contact :: contact in s.queues ==> QueueInv(s, contact, s.queues[contact])
  }

  lemma {:induction false} TotalRemove(queues: Queues, contact: string)
    requires contact in queues
    ensures Total(queues) == |queues[contact]| + Total(queues - {contact})
    decreases |queues|
  {
    var c :| c in queues && Total(queues) == |queues[c]| + Total(queues - {c});
    if c != contact {
      assert |queues - {c}| < |queues| by { Smaller(queues, c); }
      assert |queues - {contact}| < |queues| by { Smaller(queues, contact); }
      TotalRemove(queues - {c}, contact);
      TotalRemove(queues - {contact}, c);
      assert (queues - {c}) - {contact} == (queues - {contact}) - {c};
    }
  }

  lemma Smaller(queues: Queues, contact: string)
    requires contact in queues
    ensures |queues - {contact}| < |queues|
  {
    assert (queues - {contact}).Keys == queues.Keys - {contact};
    assert |queues| == |queues.Keys| && |queues - {contact}| == |(queues - {contact}).Keys|;
  }

  lemma TotalUpdate(queues: Queues, contact: string, items: seq<Item>)
    ensures Total(queues[contact := items]) + (if contact in queues then |queues[contact]| else 0)
         == Total(queues) + |items|
  {
    var out := queues[contact := items];
    TotalRemove(out, contact);
    assert out - {contact} == queues - {contact};
    if contact in queues {
      TotalRemove(queues, contact);
    } else {
      assert queues - {contact} == queues;
    }
  }

  lemma {:induction false} TotalShrinks(p: Queues, q: Queues)
    requires forall contact :: contact in q ==> contact in p && |q[contact]| <= |p[contact]|
    ensures Total(q) <= Total(p)
    decreases |p|
  {
    if p != map[] {
      var contact :| contact in p;
      Smaller(p, contact);
      TotalRemove(p, contact);
      if contact in q {
        TotalRemove(q, contact);
      } else {
        assert q - {contact} == q;
      }
      TotalShrinks(p - {contact}, q - {contact});
    } else {
      assert q == map[];
    }
  }

  lemma {:induction false} ReviewsConcat(a: seq<Item>, b: seq<Item>)
    ensures Reviews(a + b) == Reviews(a) + Reviews(b)
  {
    if a == [] {
      assert a + b == b;
    } else {
      assert (a + b)[1..] == a[1..] + b;
      ReviewsConcat(a[1..], b);
    }
  }

  /** What a filter keeps: order, ids, arrivals, and only what was there. */
  ghost predicate Thinned(kept: seq<Item>, items: seq<Item>) {
    && |kept| <= |items|
    && (forall item :: item in kept ==> item in items)
    && (forall i, j :: 0 <= i < j < |kept| ==> Before(items, kept[i], kept[j]))
    && (forall i :: 0 < i < |kept| ==> NotFirst(items, kept[i]))
  }

  ghost predicate NotFirst(items: seq<Item>, item: Item) {
    exists j :: 0 < j < |items| && items[j] == item
  }

  ghost predicate Before(items: seq<Item>, a: Item, b: Item) {
    exists i, j :: 0 <= i < j < |items| && items[i] == a && items[j] == b
  }

  lemma BeforeCons(items: seq<Item>, a: Item, b: Item)
    requires items != [] && Before(items[1..], a, b)
    ensures Before(items, a, b)
  {
    var k, l :| 0 <= k < l < |items[1..]| && items[1..][k] == a && items[1..][l] == b;
    assert items[k + 1] == a && items[l + 1] == b;
  }

  lemma BeforeHead(items: seq<Item>, b: Item) returns (l: nat)
    requires items != [] && b in items[1..]
    ensures 0 < l < |items| && items[l] == b
    ensures Before(items, items[0], b)
  {
    var k :| 0 <= k < |items[1..]| && items[1..][k] == b;
    l := k + 1;
    assert items[0] == items[0] && items[l] == b;
  }

  lemma ThinnedSkip(kept: seq<Item>, items: seq<Item>)
    requires items != [] && Thinned(kept, items[1..])
    ensures Thinned(kept, items)
  {
    forall x | x in kept ensures x in items {
      var l := BeforeHead(items, x);
    }
    forall i, j | 0 <= i < j < |kept| ensures Before(items, kept[i], kept[j]) {
      BeforeCons(items, kept[i], kept[j]);
    }
    forall i | 0 < i < |kept| ensures NotFirst(items, kept[i]) {
      assert kept[i] in kept;
      var l := BeforeHead(items, kept[i]);
    }
  }

  lemma ThinnedKeep(kept: seq<Item>, items: seq<Item>)
    requires items != [] && Thinned(kept, items[1..])
    ensures Thinned([items[0]] + kept, items)
  {
    var out := [items[0]] + kept;
    forall i | 0 < i < |out| ensures out[i] == kept[i - 1] && out[i] in kept {
    }
    forall x | x in out ensures x in items {
      if x != items[0] {
        var l := BeforeHead(items, x);
      }
    }
    forall i, j | 0 <= i < j < |out| ensures Before(items, out[i], out[j]) {
      if i == 0 {
        var l := BeforeHead(items, out[j]);
      } else {
        BeforeCons(items, kept[i - 1], kept[j - 1]);
      }
    }
    forall i | 0 < i < |out| ensures NotFirst(items, out[i]) {
      var l := BeforeHead(items, out[i]);
    }
  }

  lemma ThinnedCons(kept: seq<Item>, items: seq<Item>, keep: bool)
    requires items != [] && Thinned(kept, items[1..])
    ensures Thinned((if keep then [items[0]] else []) + kept, items)
  {
    if keep {
      ThinnedKeep(kept, items);
    } else {
      ThinnedSkip(kept, items);
      assert [] + kept == kept;
    }
  }

  lemma {:induction false} WithoutReviewsThins(items: seq<Item>)
    ensures Thinned(WithoutReviews(items), items) && Reviews(WithoutReviews(items)) == 0
    ensures forall item :: item in items && !item.review ==> item in WithoutReviews(items)
  {
    if items != [] {
      WithoutReviewsThins(items[1..]);
      ThinnedCons(WithoutReviews(items[1..]), items, !items[0].review);
      ReviewsConcat(if items[0].review then [] else [items[0]], WithoutReviews(items[1..]));
    }
  }

  lemma {:induction false} WithoutRootThins(items: seq<Item>, id: RootId)
    ensures Thinned(WithoutRoot(items, id), items) && Reviews(WithoutRoot(items, id)) <= Reviews(items)
    ensures forall item :: item in WithoutRoot(items, id) <==> item in items && item.id != id
  {
    if items != [] {
      WithoutRootThins(items[1..], id);
      ThinnedCons(WithoutRoot(items[1..], id), items, items[0].id != id);
      ReviewsConcat(if items[0].id == id then [] else [items[0]], WithoutRoot(items[1..], id));
    }
  }

  lemma ThinnedKeepsInv(s: Store, contact: string, items: seq<Item>, kept: seq<Item>)
    requires QueueInv(s, contact, items) && Thinned(kept, items) && Reviews(kept) <= 1
    ensures QueueInv(s, contact, kept)
  {
    forall i, j | 0 <= i < j < |kept| ensures kept[i].id != kept[j].id && kept[i].arrival < kept[j].arrival {
      assert Before(items, kept[i], kept[j]);
    }
    forall i | 0 <= i < |kept| ensures kept[i].id.contact == contact && kept[i].arrival < s.nextArrival {
      assert kept[i] in kept;
    }
  }

  lemma AppendKeepsInv(s: Store, contact: string, kept: seq<Item>, item: Item)
    requires QueueInv(s, contact, kept) && |kept| < MAX_QUEUED_ROOTS_PER_CONTACT
    requires item.id.contact == contact && item.arrival == s.nextArrival && item.claim == None
    requires forall i :: 0 <= i < |kept| ==> kept[i].id != item.id
    requires Reviews(kept) + (if item.review then 1 else 0) <= 1
    ensures QueueInv(s.(nextArrival := s.nextArrival + 1), contact, kept + [item])
  {
    ReviewsConcat(kept, [item]);
  }

  lemma EnqueueKeepsInv(s: Store, id: RootId, review: bool, now: real)
    requires StoreInv(s) && Enqueue(s, id, review, now).Accepted?
    ensures StoreInv(Enqueue(s, id, review, now).store)
  {
    var items := Backlog(s, id.contact);
    if !Holds(items, id) {
      var kept := if review then WithoutReviews(items) else items;
      RoomFor(s, id, review);
      var item := Item(id, review, now, None, s.nextArrival);
      AppendKeepsInv(s, id.contact, kept, item);
      TotalUpdate(s.queues, id.contact, kept);
      TotalUpdate(s.queues, id.contact, kept + [item]);
    }
  }

  /** What is left of a contact's queue before a root is appended to it. */
  lemma RoomFor(s: Store, id: RootId, review: bool)
    requires StoreInv(s) && !Holds(Backlog(s, id.contact), id)
    ensures var kept := if review then WithoutReviews(Backlog(s, id.contact)) else Backlog(s, id.contact);
            && QueueInv(s, id.contact, kept) && (forall i :: 0 <= i < |kept| ==> kept[i].id != id)
            && (review ==> Reviews(kept) == 0)
  {
    var items := Backlog(s, id.contact);
    assert QueueInv(s, id.contact, items);
    if review {
      var kept := WithoutReviews(items);
      WithoutReviewsThins(items);
      ThinnedKeepsInv(s, id.contact, items, kept);
      forall i | 0 <= i < |kept| ensures kept[i].id != id {
        assert kept[i] in kept;
      }
    }
  }

  lemma AcknowledgeKeepsInv(s: Store, id: RootId)
    requires StoreInv(s)
    ensures StoreInv(s.(queues := Acknowledge(s.queues, id)))
  {
    var out := Acknowledge(s.queues, id);
    forall contact | contact in out ensures QueueInv(s, contact, out[contact]) {
      WithoutRootThins(s.queues[contact], id);
      ThinnedKeepsInv(s, contact, s.queues[contact], out[contact]);
    }
    forall contact | contact in out ensures |out[contact]| <= |s.queues[contact]| {
      WithoutRootThins(s.queues[contact], id);
    }
    TotalShrinks(s.queues, out);
    forall contact | contact in out ensures QueueInv(s.(queues := out), contact, out[contact]) {
      assert QueueInv(s, contact, out[contact]);
    }
  }

  lemma ClaimHeadKeepsInv(s: Store, contact: string, items: seq<Item>, owner: nat, pid: nat, now: real)
    requires items != [] && QueueInv(s, contact, items)
    ensures QueueInv(s, contact, ClaimHead(items, owner, pid, now))
  {
    var out := ClaimHead(items, owner, pid, now);
    assert out[1..] == items[1..];
  }

  /** One contact's queue is replaced by one no longer. */
  lemma ReplacedKeepsInv(s: Store, contact: string, items: seq<Item>)
    requires StoreInv(s) && contact in s.queues && QueueInv(s, contact, items) && |items| <= |s.queues[contact]|
    ensures StoreInv(s.(queues := s.queues[contact := items]))
  {
    TotalUpdate(s.queues, contact, items);
    var t := s.(queues := s.queues[contact := items]);
    forall c | c in t.queues ensures QueueInv(t, c, t.queues[c]) {
      assert c != contact ==> QueueInv(s, c, s.queues[c]);
    }
  }

  lemma {:induction false} ClaimKeepsInv(s: Store, contacts: seq<string>, w: Worker, room: nat, now: real)
    requires StoreInv(s)
    ensures StoreInv(s.(queues := ClaimReady(s.queues, contacts, w, room, now).0))
    decreases |contacts|
  {
    if contacts != [] && room > 0 {
      if contacts[0] in s.queues && !w.busy(contacts[0]) && Claimable(s.queues[contacts[0]], w.alive, now) {
        var head := ClaimHead(s.queues[contacts[0]], w.owner, w.pid, now);
        var claimed := s.(queues := s.queues[contacts[0] := head]);
        ClaimHeadKeepsInv(s, contacts[0], s.queues[contacts[0]], w.owner, w.pid, now);
        ReplacedKeepsInv(s, contacts[0], head);
        ClaimKeepsInv(claimed, contacts[1..], w, room - 1, now);
      } else {
        ClaimKeepsInv(s, contacts[1..], w, room, now);
      }
    }
  }
}
