/** Each step of the dispatcher keeps the conservation invariant. */
module DispatcherSteps {
  import opened Common
  import opened DispatcherModel
  import opened DispatcherInvariant

  // ----------------------------------------------------------------- scheduling

  lemma FreshOwner(owner: map<nat, Place>, token: nat, place: Place)
    requires token !in owner
    ensures SameExcept(owner, owner[token := place], place, place)
    ensures |owner[token := place]| == |owner| + 1
  {
    CardinalityOf(owner);
    CardinalityOf(owner[token := place]);
    assert owner[token := place].Keys == owner.Keys + {token};
  }

  lemma StartKeepsHands(w: World, k: nat, a: Admission)
    requires HandsInv(w) && Unissued(w, a.token) && w.slots.nextThread !in w.threads
    requires w.slots.claimed < w.slots.limit && a.contact !in w.slots.running
    ensures HandsInv(WithScheduled(w, k, a, false))
  {
    var t := WithScheduled(w, k, a, false);
    var place := InPending(a.contact);
    FreshOwner(w.owner, a.token, place);
    forall u | u in t.threads ensures HandAccounted(t, u) {
      if u in w.threads {
        assert HandAccounted(w, u);
        AccountedElsewhere(w.owner, t.owner, place, place, Hands(w.threads[u].stage), w.threads[u].contact, InHand(u));
      }
    }
  }

  lemma JoinPending(w: World, a: Admission)
    requires PendingInv(w) && Unissued(w, a.token)
    ensures PendingInv(w.(
                       slots := w.slots.(pending := w.slots.pending[a.contact := Held(w.slots.pending, a.contact) + [a]]),
                       owner := w.owner[a.token := InPending(a.contact)]))
  {
    var t := w.(
      slots := w.slots.(pending := w.slots.pending[a.contact := Held(w.slots.pending, a.contact) + [a]]),
      owner := w.owner[a.token := InPending(a.contact)]);
    var place := InPending(a.contact);
    FreshOwner(w.owner, a.token, place);
    assert PendingAccounted(w, a.contact);
    AccountedGrows(w.owner, Held(w.slots.pending, a.contact), a, place);
    assert PendingAccounted(t, a.contact);
    forall c | c != a.contact ensures Held(t.slots.pending, c) == Held(w.slots.pending, c) {
    }
    PendingFrame(w, t, place, place);
  }

  lemma JoinInjected(w: World, a: Admission)
    requires InjectedInv(w) && Unissued(w, a.token)
    ensures InjectedInv(w.(
                        slots := w.slots.(injected := w.slots.injected[a.contact := Held(w.slots.injected, a.contact) + [a]]),
                        owner := w.owner[a.token := InInjected(a.contact)]))
  {
    var t := w.(
      slots := w.slots.(injected := w.slots.injected[a.contact := Held(w.slots.injected, a.contact) + [a]]),
      owner := w.owner[a.token := InInjected(a.contact)]);
    var place := InInjected(a.contact);
    FreshOwner(w.owner, a.token, place);
    assert InjectedAccounted(w, a.contact);
    AccountedGrows(w.owner, Held(w.slots.injected, a.contact), a, place);
    assert InjectedAccounted(t, a.contact);
    forall c | c != a.contact ensures Held(t.slots.injected, c) == Held(w.slots.injected, c) {
    }
    InjectedFrame(w, t, place, place);
  }

  /** The pending and injected lists speak only of their own maps. */
  lemma SamePendingInv(w: World, t: World)
    requires PendingInv(w) && t.owner == w.owner && t.slots.pending == w.slots.pending
    ensures PendingInv(t)
  {
    forall c ensures PendingAccounted(t, c) {
      assert PendingAccounted(w, c);
    }
  }

  lemma SameInjectedInv(w: World, t: World)
    requires InjectedInv(w) && t.owner == w.owner && t.slots.injected == w.slots.injected
    ensures InjectedInv(t)
  {
    forall c ensures InjectedAccounted(t, c) {
      assert InjectedAccounted(w, c);
    }
  }

  lemma StartKeepsPlaces(w: World, k: nat, a: Admission)
    requires PlacesInv(w) && CountInv(w) && Unissued(w, a.token) && w.slots.nextThread !in w.threads
    requires w.slots.claimed < w.slots.limit && a.contact !in w.slots.running
    ensures PlacesInv(WithScheduled(w, k, a, false)) && CountInv(WithScheduled(w, k, a, false))
  {
    var t := WithScheduled(w, k, a, false);
    assert PendingInv(t) by {
      JoinPending(w, a);
      SamePendingInv(w.(slots := w.slots.(pending := t.slots.pending), owner := t.owner), t);
    }
    assert InjectedInv(t) by {
      FreshOwner(w.owner, a.token, InPending(a.contact));
      InjectedFrame(w, t, InPending(a.contact), InPending(a.contact));
    }
    assert HandsInv(t) by { StartKeepsHands(w, k, a); }
    FreshOwner(w.owner, a.token, InPending(a.contact));
  }

  lemma StartKeepsThreads(w: World, k: nat, a: Admission)
    requires ThreadsInv(w) && w.slots.claimed < w.slots.limit && a.contact !in w.slots.running
    ensures ThreadsInv(WithScheduled(w, k, a, false))
  {
    var t := WithScheduled(w, k, a, false);
    assert w.slots.nextThread !in w.threads;
    forall c | c in t.slots.running ensures exists u :: u in t.slots.threads && t.slots.threads[u] == c {
      if c == a.contact {
        assert t.slots.threads[w.slots.nextThread] == c;
      } else {
        var u :| u in w.slots.threads && w.slots.threads[u] == c;
        assert t.slots.threads[u] == c;
      }
    }
  }

  lemma StartKeepsCovered(w: World, k: nat, a: Admission)
    requires CoveredInv(w) && w.slots.claimed < w.slots.limit && w.slots.nextThread !in w.threads
    requires a.contact !in w.slots.running && a.contact !in w.slots.pending
    ensures CoveredInv(WithScheduled(w, k, a, false))
  {
    var t := WithScheduled(w, k, a, false);
    forall c | c in t.slots.pending ensures |t.slots.pending[c]| == 1 && WaitsAtTop(t, c) {
      if c == a.contact {
        assert t.threads[w.slots.nextThread] == Thread(c, AtTop);
      } else {
        assert WaitsAtTop(w, c);
        var u :| u in w.slots.threads && u in w.threads && w.threads[u] == Thread(c, AtTop);
        assert t.threads[u] == Thread(c, AtTop);
      }
    }
  }

  lemma StartKeepsSettled(w: World, k: nat, a: Admission)
    requires SettledInv(w) && Unissued(w, a.token) && w.slots.nextThread !in w.threads
    requires w.slots.claimed < w.slots.limit && a.contact !in w.slots.running
    ensures SettledInv(WithScheduled(w, k, a, false))
  {
  }

  lemma IdleContactHasNothing(w: World, c: string)
    requires ThreadsInv(w) && CoveredInv(w) && c !in w.slots.running
    ensures c !in w.slots.pending
  {
  }

  lemma StartKeepsInv(w: World, k: nat, a: Admission)
    requires WorldInv(w) && Unissued(w, a.token)
    requires w.slots.claimed < w.slots.limit && a.contact !in w.slots.running
    ensures WorldInv(WithScheduled(w, k, a, false))
  {
    IdleContactHasNothing(w, a.contact);
    assert w.slots.nextThread !in w.threads;
    StartKeepsPlaces(w, k, a);
    StartKeepsThreads(w, k, a);
    StartKeepsCovered(w, k, a);
    StartKeepsSettled(w, k, a);
  }

  lemma InjectKeepsPlaces(w: World, k: nat, a: Admission)
    requires PlacesInv(w) && CountInv(w) && Unissued(w, a.token)
    requires w.slots.claimed < w.slots.limit && a.contact in w.slots.running
    ensures PlacesInv(WithScheduled(w, k, a, true)) && CountInv(WithScheduled(w, k, a, true))
  {
    var t := WithScheduled(w, k, a, true);
    var place := InInjected(a.contact);
    FreshOwner(w.owner, a.token, place);
    assert PendingInv(t) by { PendingFrame(w, t, place, place); }
    assert InjectedInv(t) by {
      JoinInjected(w, a);
      SameInjectedInv(w.(slots := w.slots.(injected := t.slots.injected), owner := t.owner), t);
    }
    assert HandsInv(t) by { HandsFrame(w, t, place, place); }
  }

  /** Nothing about the threads changed. */
  lemma SameThreads(w: World, t: World)
    requires ThreadsInv(w) && t.threads == w.threads && t.slots.threads == w.slots.threads
    requires t.slots.running == w.slots.running && t.slots.nextThread == w.slots.nextThread
    ensures ThreadsInv(t)
    ensures forall c :: WaitsAtTop(w, c) ==> WaitsAtTop(t, c)
  {
    forall c | c in t.slots.running ensures exists u :: u in t.slots.threads && t.slots.threads[u] == c {
      var u :| u in w.slots.threads && w.slots.threads[u] == c;
      assert t.slots.threads[u] == c;
    }
  }

  lemma InjectKeepsRest(w: World, k: nat, a: Admission)
    requires SettledInv(w) && CoveredInv(w) && ThreadsInv(w) && Unissued(w, a.token)
    requires w.slots.claimed < w.slots.limit && a.contact in w.slots.running
    ensures SettledInv(WithScheduled(w, k, a, true)) && CoveredInv(WithScheduled(w, k, a, true))
  {
    SameThreads(w, WithScheduled(w, k, a, true));
  }

  lemma InjectKeepsInv(w: World, k: nat, a: Admission)
    requires WorldInv(w) && Unissued(w, a.token)
    requires w.slots.claimed < w.slots.limit && a.contact in w.slots.running
    ensures WorldInv(WithScheduled(w, k, a, true))
  {
    var t := WithScheduled(w, k, a, true);
    assert PlacesInv(t) && CountInv(t) by { InjectKeepsPlaces(w, k, a); }
    assert ThreadsInv(t) by { SameThreads(w, t); }
    assert SettledInv(t) && CoveredInv(t) by { InjectKeepsRest(w, k, a); }
  }

  lemma HandBackKeepsInv(w: World, a: Admission, how: Settlement)
    requires WorldInv(w) && Unissued(w, a.token)
    ensures WorldInv(w.(settled := w.settled[a.token := how]))
  {
    var t := w.(settled := w.settled[a.token := how]);
    SameThreads(w, t);
    PlacesIgnoreSettled(w, t.settled);
    assert CoveredInv(t) by { assert CoveredInv(w); }
  }

  lemma PlacesIgnoreSettled(w: World, settled: map<nat, Settlement>)
    requires PlacesInv(w)
    ensures PlacesInv(w.(settled := settled))
  {
    var t := w.(settled := settled);
    forall c ensures PendingAccounted(t, c) && InjectedAccounted(t, c) {
      assert PendingAccounted(w, c) && InjectedAccounted(w, c);
    }
    forall u | u in t.threads ensures HandAccounted(t, u) {
      assert HandAccounted(w, u);
    }
  }

  lemma ScheduledKeepsInv(w: World, k: nat, a: Admission, offer: bool)
    requires WorldInv(w) && Unissued(w, a.token)
    ensures WorldInv(WithScheduled(w, k, a, offer))
  {
    if w.slots.claimed < w.slots.limit && a.contact !in w.slots.running {
      StartKeepsInv(w, k, a);
      assert WithScheduled(w, k, a, offer) == WithScheduled(w, k, a, false);
    } else if w.slots.claimed < w.slots.limit && offer {
      InjectKeepsInv(w, k, a);
    } else {
      HandBackKeepsInv(w, a, Deferred);
    }
  }

  lemma ScheduledIssuesOne(w: World, k: nat, a: Admission, offer: bool, token: nat)
    requires Unissued(w, token) && token != a.token
    ensures Unissued(WithScheduled(w, k, a, offer), token)
  {
  }

  lemma {:induction false} AllScheduledKeepsInv(w: World, k: nat, admissions: Batch, offers: seq<bool>)
    requires WorldInv(w) && |offers| == |admissions|
    requires forall a :: a in admissions ==> Unissued(w, a.token)
    requires DistinctTokens(admissions)
    ensures WorldInv(WithAllScheduled(w, k, admissions, offers))
    decreases |admissions|
  {
    if admissions != [] {
      var a, rest := admissions[0], admissions[1..];
      assert WorldInv(WithScheduled(w, k, a, offers[0])) by { ScheduledKeepsInv(w, k, a, offers[0]); }
      assert forall i :: 0 <= i < |rest| ==> rest[i] == admissions[i + 1];
      forall b | b in rest ensures Unissued(WithScheduled(w, k, a, offers[0]), b.token) {
        assert b in admissions;
        ScheduledIssuesOne(w, k, a, offers[0], b.token);
      }
      AllScheduledKeepsInv(WithScheduled(w, k, a, offers[0]), k, rest, offers[1..]);
    }
  }

  // -------------------------------------------------------------- thread moves

  lemma MoveKeepsThreads(w: World, m: World, t: nat)
    requires ThreadsInv(w) && t in w.threads && t in m.threads
    requires m.threads.Keys == w.threads.Keys && m.threads[t].contact == w.threads[t].contact
    requires Live(m.threads[t].stage) == Live(w.threads[t].stage)
    requires forall u :: u in w.threads && u != t ==> m.threads[u] == w.threads[u]
    requires m.slots.threads == w.slots.threads && m.slots.running == w.slots.running
    requires m.slots.nextThread == w.slots.nextThread
    ensures ThreadsInv(m)
  {
    forall c | c in m.slots.running ensures exists u :: u in m.slots.threads && m.slots.threads[u] == c {
      var u :| u in w.slots.threads && w.slots.threads[u] == c;
      assert m.slots.threads[u] == c;
    }
  }

  lemma MoveKeepsCovered(w: World, m: World, t: nat)
    requires CoveredInv(w) && t in w.threads && !w.threads[t].stage.AtTop?
    requires forall u :: u in w.threads && u != t ==> u in m.threads && m.threads[u] == w.threads[u]
    requires forall u :: u in w.slots.threads && u != t ==> u in m.slots.threads
    requires m.slots.pending == w.slots.pending && m.slots.running == w.slots.running && m.aborted == w.aborted
    requires forall c :: c in m.slots.injected ==> c in w.slots.injected
    ensures CoveredInv(m)
  {
    forall c | c in m.slots.pending ensures WaitsAtTop(m, c) {
      assert WaitsAtTop(w, c);
      var u :| u in w.slots.threads && u in w.threads && w.threads[u] == Thread(c, AtTop);
      assert m.threads[u] == Thread(c, AtTop);
    }
  }

  lemma MoveKeepsPlaces(w: World, t: nat, stage: Stage)
    requires PlacesInv(w) && t in w.threads && Hands(stage) == Hands(w.threads[t].stage)
    ensures PlacesInv(Moved(w, t, stage))
  {
    var m := Moved(w, t, stage);
    PendingFrame(w, m, Leaked, Leaked);
    InjectedFrame(w, m, Leaked, Leaked);
    forall u | u in m.threads ensures HandAccounted(m, u) {
      assert HandAccounted(w, u);
    }
  }

  lemma MoveKeepsSettled(w: World, t: nat, stage: Stage)
    requires SettledInv(w) && t in w.threads && SettledHands(stage) == SettledHands(w.threads[t].stage)
    ensures SettledInv(Moved(w, t, stage))
  {
  }

  /** A thread moves on with the same admissions in hand and the same ones settled. */
  lemma MoveKeepsInv(w: World, t: nat, stage: Stage)
    requires WorldInv(w) && t in w.threads && !w.threads[t].stage.AtTop?
    requires Hands(stage) == Hands(w.threads[t].stage) && Live(stage) == Live(w.threads[t].stage)
    requires SettledHands(stage) == SettledHands(w.threads[t].stage)
    ensures WorldInv(Moved(w, t, stage))
  {
    var m := Moved(w, t, stage);
    assert PlacesInv(m) && CountInv(m) by { MoveKeepsPlaces(w, t, stage); }
    assert ThreadsInv(m) by { MoveKeepsThreads(w, m, t); }
    assert CoveredInv(m) by { MoveKeepsCovered(w, m, t); }
    assert SettledInv(m) by { MoveKeepsSettled(w, t, stage); }
  }
}
